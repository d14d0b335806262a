/** The server example that lets only clients with the second password operate. */
module PasswordControl {
  import opened Wrappers

  type Client = nat

  datatype Point = SPCSO1 | SPCSO2 | SPCSO3 | SPCSO4

  const PASSWORD1: string := "user1@testpw"
  const PASSWORD2: string := "user2@testpw"

  /** What a client sends to be let in. */
  datatype AuthParameter = Password(octets: string) | OtherMechanism

  /** The security token: which of the two password strings it points to. */
  datatype Token = Token1 | Token2

  datatype CheckResult = ControlAccepted | ObjectAccessDenied

  datatype Status = Status(stVal: int, t: nat)

  datatype Operation = Operation(value: int, test: bool)

  /** `tokens` holds the open connections, `pending` the accepted operation of each busy control object, and
      `status` the status of each object that was operated at all. */
  datatype Server = Server(tokens: map<Client, Token>, pending: map<Point, Operation>, status: map<Point, Status>)

  datatype Event =
    | Connect(client: Client, auth: AuthParameter)
    | Close(client: Client)
    | Operate(client: Client, p: Point, value: int, test: bool)
    | Execute(p: Point, now: nat)

  function Authenticated(auth: AuthParameter): Option<Token> {
    if auth == Password(PASSWORD1) then Some(Token1)
    else if auth == Password(PASSWORD2) then Some(Token2)
    else None
  }

  predicate Accepts(s: Server, e: Event) {
    e.Operate? && e.client in s.tokens && e.p !in s.pending && s.tokens[e.client] == Token2
  }

  /** As for the other server, an event that cannot happen changes nothing. */
  function Step(s: Server, e: Event): Server {
    match e
    case Connect(c, auth) =>
      if c in s.tokens || Authenticated(auth).None? then s else s.(tokens := s.tokens[c := Authenticated(auth).value])
    case Close(c) => s.(tokens := s.tokens - {c})
    case Operate(c, p, v, test) =>
      if Accepts(s, e) then s.(pending := s.pending[p := Operation(v, test)]) else s
    case Execute(p, now) =>
      if p in s.pending then
        s.(status := s.status[p := Status(s.pending[p].value, now)], pending := s.pending - {p})
      else s
  }

  function Run(es: seq<Event>): Server {
    if es == [] then Server(map[], map[], map[]) else Step(Run(es[..|es| - 1]), es[|es| - 1])
  }

  // ---------- the program ----------

  method Memcmp(a: string, b: string, length: nat) returns (equal: bool)
    requires length <= |a| && length <= |b|
    ensures equal <==> a[..length] == b[..length]
  {
    for i := 0 to length
      invariant a[..i] == b[..i]
    {
      if a[i] != b[i] {
        assert a[..length][i] != b[..length][i];
        return false;
      }
    }
    return true;
  }

  class PasswordServer {
    var tokens: map<Client, Token>
    var pending: map<Point, Operation>
    var status: map<Point, Status>

    constructor ()
      ensures Abs() == Run([])
    {
      tokens, pending, status := map[], map[], map[];
    }

    function Abs(): Server
      reads this
    {
      Server(tokens, pending, status)
    }

    /** The token is that of the password the octets are equal to; without one the client is not let in. */
    method ClientAuthenticator(auth: AuthParameter) returns (accepted: bool, securityToken: Option<Token>)
      ensures accepted <==> auth in {Password("user1@testpw"), Password("user2@testpw")}
      ensures securityToken == Some(Token1) <==> auth == Password("user1@testpw")
      ensures securityToken == Some(Token2) <==> auth == Password("user2@testpw")
    {
      assert PASSWORD1[4] != PASSWORD2[4];
      if auth.Password? {
        var octets := auth.octets;
        if |octets| == |PASSWORD1| {
          var equal := Memcmp(octets, PASSWORD1, |octets|);
          assert octets[..|octets|] == octets && PASSWORD1[..|PASSWORD1|] == PASSWORD1;
          if equal { return true, Some(Token1); }
        }
        if |octets| == |PASSWORD2| {
          var equal := Memcmp(octets, PASSWORD2, |octets|);
          assert octets[..|octets|] == octets && PASSWORD2[..|PASSWORD2|] == PASSWORD2;
          if equal { return true, Some(Token2); }
        }
      }
      return false, None;
    }

    method PerformCheckHandler(connection: Client) returns (r: CheckResult)
      requires connection in tokens
      ensures r == ControlAccepted <==> tokens[connection] == Token2
    {
      var securityToken := tokens[connection];
      if securityToken == Token2 { return ControlAccepted; } else { return ObjectAccessDenied; }
    }

    /** The handler does not look at `test`. */
    method ControlHandlerForBinaryOutput(parameter: Point, value: int, test: bool, timeStamp: nat)
      modifies this`status
      ensures status == old(status)[parameter := Status(value, timeStamp)]
    {
      status := status[parameter := Status(value, timeStamp)];
    }

    method Dispatch(e: Event)
      modifies this
      ensures Abs() == Step(old(Abs()), e)
    {
      match e {
        case Connect(c, auth) =>
          if c !in tokens {
            var accepted, token := ClientAuthenticator(auth);
            if accepted { tokens := tokens[c := token.value]; }
          }
        case Close(c) => tokens := tokens - {c};
        case Operate(c, p, v, test) =>
          if c in tokens && p !in pending {
            var r := PerformCheckHandler(c);
            if r == ControlAccepted { pending := pending[p := Operation(v, test)]; }
          }
        case Execute(p, now) =>
          if p in pending {
            ControlHandlerForBinaryOutput(p, pending[p].value, pending[p].test, now);
            pending := pending - {p};
          }
      }
    }
  }

  method Serve(es: seq<Event>) returns (server: PasswordServer)
    ensures server.Abs() == Run(es)
  {
    server := new PasswordServer();
    for i := 0 to |es|
      invariant fresh(server)
      invariant server.Abs() == Run(es[..i])
    {
      server.Dispatch(es[i]);
      assert es[..i + 1][..i] == es[..i];
    }
    assert es[..|es|] == es;
  }

  // ---------- permission over runs ----------

  /** The two passwords. */
  function PasswordOf(token: Token): string {
    match token
    case Token1 => "user1@testpw"
    case Token2 => "user2@testpw"
  }

  /** At event `i` this client was let in with the password of the token, and it has not left since. */
  ghost predicate LetInSince(es: seq<Event>, i: nat, c: Client, token: Token) {
    && i < |es| && es[i] == Connect(c, Password(PasswordOf(token))) && c !in Run(es[..i]).tokens
    && forall k :: i < k < |es| ==> es[k] != Close(c)
  }

  lemma LetInExtends(es: seq<Event>, e: Event, i: nat, c: Client, token: Token)
    requires i < |es|
    ensures LetInSince(es + [e], i, c, token) <==> LetInSince(es, i, c, token) && e != Close(c)
  {
    var fs := es + [e];
    assert fs[..i] == es[..i] && fs[|es|] == e;
    if LetInSince(fs, i, c, token) {
      forall k | i < k < |es| ensures es[k] != Close(c) { assert fs[k] == es[k]; }
    }
  }

  predicate Has(s: Server, c: Client, token: Token) { c in s.tokens && s.tokens[c] == token }

  lemma StepTokens(s: Server, e: Event, c: Client, token: Token)
    ensures Has(Step(s, e), c, token) <==>
      (Has(s, c, token) && e != Close(c)) || (e == Connect(c, Password(PasswordOf(token))) && c !in s.tokens)
  {
    assert PASSWORD1[4] != PASSWORD2[4];
  }

  /** Who holds which token, read off the history alone. */
  lemma {:induction false} HasTokenIff(es: seq<Event>, c: Client, token: Token)
    ensures Has(Run(es), c, token) <==> exists i: nat :: LetInSince(es, i, c, token)
  {
    if es != [] {
      var init, e := es[..|es| - 1], es[|es| - 1];
      assert es == init + [e];
      HasTokenIff(init, c, token);
      StepTokens(Run(init), e, c, token);
      forall i: nat | i < |init|
        ensures LetInSince(es, i, c, token) <==> LetInSince(init, i, c, token) && e != Close(c)
      {
        LetInExtends(init, e, i, c, token);
      }
      assert LetInSince(es, |init|, c, token) <==>
        e == Connect(c, Password(PasswordOf(token))) && c !in Run(init).tokens;
      if i: nat :| LetInSince(init, i, c, token) && e != Close(c) { assert LetInSince(es, i, c, token); }
    }
  }

  /** Who is connected: exactly the clients that were let in with one of the two passwords and have not left since. */
  lemma ConnectedIff(es: seq<Event>, c: Client)
    ensures c in Run(es).tokens <==> exists i: nat, token: Token :: LetInSince(es, i, c, token)
  {
    HasTokenIff(es, c, Token1);
    HasTokenIff(es, c, Token2);
    if i: nat, token: Token :| LetInSince(es, i, c, token) { HasTokenIff(es, c, token); }
    if c in Run(es).tokens {
      var i: nat :| LetInSince(es, i, c, Run(es).tokens[c]);
    }
  }

  /** Who may operate: the clients let in with the second password. */
  lemma MayOperateIff(es: seq<Event>, c: Client)
    ensures c in Run(es).tokens && Run(es).tokens[c] == Token2 <==> exists i: nat :: LetInSince(es, i, c, Token2)
  {
    HasTokenIff(es, c, Token2);
  }

  /** The values of the operations on `p` that passed the check, in order. */
  ghost function Commanded(es: seq<Event>, p: Point): seq<int> {
    if es == [] then []
    else
      var init, e := es[..|es| - 1], es[|es| - 1];
      Commanded(init, p) + CommandedBy(Run(init), e, p)
  }

  function CommandedBy(s: Server, e: Event, p: Point): seq<int> {
    if Accepts(s, e) && e.p == p then [e.value] else []
  }

  /** What the handler runs for `p` have written, in order: the operation's value, and the time of the run. */
  ghost function Executed(es: seq<Event>, p: Point): seq<Status> {
    if es == [] then []
    else
      var init, e := es[..|es| - 1], es[|es| - 1];
      Executed(init, p) + ExecutedBy(Run(init), e, p)
  }

  function ExecutedBy(s: Server, e: Event, p: Point): seq<Status> {
    if e.Execute? && e.p == p && p in s.pending then [Status(s.pending[p].value, e.now)] else []
  }

  function Values(written: seq<Status>): seq<int> {
    seq(|written|, i requires 0 <= i < |written| => written[i].stVal)
  }

  function Pending(s: Server, p: Point): seq<int> {
    if p in s.pending then [s.pending[p].value] else []
  }

  lemma {:induction false} CommandedAreExecuted(es: seq<Event>, p: Point)
    ensures Commanded(es, p) == Values(Executed(es, p)) + Pending(Run(es), p)
  {
    if es != [] {
      var init, e := es[..|es| - 1], es[|es| - 1];
      var s := Run(init);
      CommandedAreExecuted(init, p);
      PendingNext(s, e, p);
      ValuesAppend(Executed(init, p), ExecutedBy(s, e, p));
      Regroup(Values(Executed(init, p)), Pending(s, p), CommandedBy(s, e, p),
              Values(ExecutedBy(s, e, p)), Pending(Step(s, e), p));
    }
  }

  /** An event passes, or ends, or leaves alone what is pending. */
  lemma PendingNext(s: Server, e: Event, p: Point)
    ensures Pending(s, p) + CommandedBy(s, e, p) == Values(ExecutedBy(s, e, p)) + Pending(Step(s, e), p)
  {
  }

  lemma Regroup(a: seq<int>, b: seq<int>, c: seq<int>, d: seq<int>, e: seq<int>)
    requires b + c == d + e
    ensures a + b + c == a + d + e
  {
    assert a + b + c == a + (b + c) && a + d + e == a + (d + e);
  }

  lemma ValuesAppend(a: seq<Status>, b: seq<Status>)
    ensures Values(a + b) == Values(a) + Values(b)
  {
  }

  lemma StatusNext(s: Server, e: Event, p: Point)
    ensures Step(s, e).status ==
      if e.Execute? && e.p in s.pending then s.status[e.p := Status(s.pending[e.p].value, e.now)] else s.status
  {
  }

  lemma {:induction false} StatusIsLastExecuted(es: seq<Event>, p: Point)
    ensures p in Run(es).status <==> Executed(es, p) != []
    ensures p in Run(es).status ==> Run(es).status[p] == Executed(es, p)[|Executed(es, p)| - 1]
  {
    if es != [] {
      var init, e := es[..|es| - 1], es[|es| - 1];
      StatusIsLastExecuted(init, p);
      StatusNext(Run(init), e, p);
    }
  }

  /** The permitted operations on an object are executed each once and in order, and its status always has the value
      of the last one executed, and the time it was executed; without one it has never been written. */
  lemma {:induction false} StatusIsLastPermitted(es: seq<Event>, p: Point)
    ensures Values(Executed(es, p)) <= Commanded(es, p) && |Commanded(es, p)| <= |Executed(es, p)| + 1
    ensures p in Run(es).status <==> Executed(es, p) != []
    ensures p in Run(es).status ==> Run(es).status[p] == Executed(es, p)[|Executed(es, p)| - 1]
    ensures p in Run(es).status ==> Run(es).status[p].stVal == Commanded(es, p)[|Executed(es, p)| - 1]
  {
    CommandedAreExecuted(es, p);
    StatusIsLastExecuted(es, p);
    FirstValues(Executed(es, p), Pending(Run(es), p), Commanded(es, p));
  }

  /** An operation passes exactly if its client was let in with the second password, is still there, and every
      operation that passed on the object before has been executed. */
  lemma PermissionIff(es: seq<Event>, c: Client, p: Point, v: int, test: bool)
    ensures Accepts(Run(es), Operate(c, p, v, test)) <==>
      (exists i: nat :: LetInSince(es, i, c, Token2)) && |Commanded(es, p)| == |Executed(es, p)|
  {
    MayOperateIff(es, c);
    CommandedAreExecuted(es, p);
  }

  lemma FirstValues(written: seq<Status>, pending: seq<int>, commanded: seq<int>)
    requires commanded == Values(written) + pending && |pending| <= 1
    ensures Values(written) <= commanded && |commanded| <= |written| + 1
    ensures written != [] ==> written[|written| - 1].stVal == commanded[|written| - 1]
  {
  }

  /** The history with every operate request marked as a test or not, as `test` says. */
  function Marked(es: seq<Event>, test: bool): seq<Event> {
    if es == [] then []
    else
      var e := es[|es| - 1];
      Marked(es[..|es| - 1], test) + [if e.Operate? then e.(test := test) else e]
  }

  /** The server but for the test flags of waiting operations. */
  ghost predicate AlikeButTest(s: Server, t: Server) {
    && s.tokens == t.tokens && s.status == t.status && s.pending.Keys == t.pending.Keys
    && forall p: Point :: p in s.pending ==> s.pending[p].value == t.pending[p].value
  }

  lemma StepAlikeButTest(s: Server, t: Server, e: Event, test: bool)
    requires AlikeButTest(s, t)
    ensures AlikeButTest(Step(s, e), Step(t, if e.Operate? then e.(test := test) else e))
  {
  }

  /** The test flag of a request plays no part: with every operate made a test, or none, the same clients get in, the
      same requests pass, and every status has the same value and time. */
  lemma {:induction false} TestFlagPlaysNoPart(es: seq<Event>, test: bool)
    ensures AlikeButTest(Run(es), Run(Marked(es, test)))
    ensures forall c: Client, p: Point, v: int, t: bool, u: bool ::
      Accepts(Run(es), Operate(c, p, v, t)) <==> Accepts(Run(Marked(es, test)), Operate(c, p, v, u))
  {
    if es != [] {
      var init, e := es[..|es| - 1], es[|es| - 1];
      TestFlagPlaysNoPart(init, test);
      StepAlikeButTest(Run(init), Run(Marked(init, test)), e, test);
      var fs := Marked(es, test);
      assert fs[..|fs| - 1] == Marked(init, test);
    }
  }
}
