/**
 The shared session context (`DataContext`): the authentication token, the
 user's role, an employee number and a position-stream map. Token and role are
 read from `localStorage` when the context is created; afterwards each field
 changes only through its own setter. The setters do not write to the store.
 */
module Context {
  import opened Wrappers
  import opened Browser

  const TokenKey := "encoded_token"
  const RoleKey := "userRole"

  datatype Session = Session(
    token: Option<string>,
    userRole: Option<string>,
    empNo: string,
    positionStreamData: map<string, string>)

  /** A session that authenticated views may use: its token is truthy. */
  predicate Authenticated(s: Session)
  {
    Truthy(s.token)
  }

  /** The state the context starts with, given the store's contents. */
  function InitialSession(items: map<string, string>): (s: Session)
    ensures TokenKey in items ==> s.token == Some(items[TokenKey])
    ensures TokenKey !in items ==> s.token == None
    ensures RoleKey in items ==> s.userRole == Some(items[RoleKey])
    ensures RoleKey !in items ==> s.userRole == None
    ensures s.empNo == "" && s.positionStreamData == map[]
  {
    Session(Lookup(items, TokenKey), Lookup(items, RoleKey), "", map[])
  }

  /** Starting from a store without a token gives an unauthenticated session. */
  lemma NoStoredTokenNoSession(items: map<string, string>)
    requires TokenKey !in items
    ensures !Authenticated(InitialSession(items))
  {
  }

  class DataContext {
    var token: Option<string>
    var userRole: Option<string>
    var empNo: string
    var positionStreamData: map<string, string>

    function State(): Session
      reads this
    {
      Session(token, userRole, empNo, positionStreamData)
    }

    constructor (store: LocalStorage)
      ensures State() == InitialSession(store.items)
    {
      token := store.GetItem(TokenKey);
      userRole := store.GetItem(RoleKey);
      empNo := "";
      positionStreamData := map[];
    }

    method SetToken(t: Option<string>)
      modifies this
      ensures State() == old(State()).(token := t)
    {
      token := t;
    }

    method SetUserRole(role: Option<string>)
      modifies this
      ensures State() == old(State()).(userRole := role)
    {
      userRole := role;
    }

    method SetEmpNo(n: string)
      modifies this
      ensures State() == old(State()).(empNo := n)
    {
      empNo := n;
    }

    method SetPositionStreamData(d: map<string, string>)
      modifies this
      ensures State() == old(State()).(positionStreamData := d)
    {
      positionStreamData := d;
    }
  }
}
