/** The server's regrouping of sockets into connections of three. */
module PeerConn {
  import opened Common
  import opened Address

  /** An accepted socket: its remote address, and what its client sent through it. The port is that of
      the client's first socket, the identifier the socket's place among the three. Either is absent
      if it could not be read. */
  datatype Sock = Sock(serial: nat, rmtAddr: SockAddr, noticePort: Option<u16>, xprtId: Option<u8>)

  datatype Conn = Conn(notice: Sock, request: Sock, data: Sock)

  /** The remote address, but with the port that the client sent. */
  function Key(s: Sock): SockAddr
    requires s.noticePort.Some?
  {
    if s.rmtAddr.Sock? then SockAddr.Sock(s.rmtAddr.inet, s.noticePort.value) else NoSock
  }

  /** Sockets have one key if and only if they come from one host and name one notice port. */
  lemma KeysEqualIff(s: Sock, t: Sock)
    requires s.rmtAddr.Sock? && t.rmtAddr.Sock? && s.noticePort.Some? && t.noticePort.Some?
    ensures Key(s) == Key(t) <==> s.rmtAddr.inet == t.rmtAddr.inet && s.noticePort == t.noticePort
  {
  }

  /** The socket is of the client on a host whose first socket has the given port there. */
  predicate FromClient(s: Sock, inet: InetAddr, port: u16) {
    s.rmtAddr.Sock? && s.rmtAddr.inet == inet && s.noticePort == Some(port)
  }

  /** The sockets are of one client; a socket with an address is not of one client with one without. */
  predicate SameClient(s: Sock, t: Sock) {
    if s.rmtAddr.Sock? then s.noticePort.Some? && FromClient(t, s.rmtAddr.inet, s.noticePort.value)
    else !t.rmtAddr.Sock?
  }

  predicate HasKey(s: Sock, k: SockAddr) {
    s.noticePort.Some? && Key(s) == k
  }

  // Setting of the transports

  predicate HasId(socks: seq<Sock>, id: u8) {
    exists i :: 0 <= i < |socks| && socks[i].xprtId == Some(id)
  }

  /** The identifiers of three sockets are 0, 1, and 2. */
  predicate Complete(socks: seq<Sock>) {
    HasId(socks, 0) && HasId(socks, 1) && HasId(socks, 2)
  }

  /** The connection consists of the three sockets, each in the place that its client gave it. */
  ghost predicate Matches(c: Conn, socks: seq<Sock>) {
    && c.notice in socks && c.request in socks && c.data in socks
    && c.notice.xprtId == Some(0) && c.request.xprtId == Some(1) && c.data.xprtId == Some(2)
    && Elems(socks) == {c.notice, c.request, c.data}
  }

  function Pick(socks: seq<Sock>, id: u8): (s: Sock)
    requires HasId(socks, id)
    ensures s in socks && s.xprtId == Some(id)
  {
    if socks[0].xprtId == Some(id) then socks[0] else Pick(socks[1..], id)
  }

  /** The connection, or none for the source's exception. */
  function Assigned(socks: seq<Sock>): (c: Option<Conn>)
    ensures c.Some? <==> Complete(socks)
  {
    if Complete(socks) then Some(Conn(Pick(socks, 0), Pick(socks, 1), Pick(socks, 2))) else None
  }

  /** The result does not depend on the order in which the three sockets arrived. */
  lemma AssignedMatches(socks: seq<Sock>, c: Conn)
    requires |socks| == 3
    ensures Assigned(socks) == Some(c) <==> Matches(c, socks)
  {
    if Complete(socks) {
      var i :| 0 <= i < 3 && socks[i].xprtId == Some(0);
      var j :| 0 <= j < 3 && socks[j].xprtId == Some(1);
      var k :| 0 <= k < 3 && socks[k].xprtId == Some(2);
      assert socks == [socks[0], socks[1], socks[2]];
      assert Elems(socks) == {socks[i], socks[j], socks[k]};
    }
  }

  // The server as a state machine

  /** `groups` is the history of the triples that made connections, `taken` that of the connections
      that were accepted. */
  datatype State = State(entries: map<SockAddr, seq<Sock>>, acceptQ: seq<Conn>, accepting: bool,
                         groups: seq<seq<Sock>>, taken: seq<Conn>)

  datatype Step = Arrive(sock: Sock) | Take

  const START := State(map[], [], true, [], [])

  function Entry(s: State, k: SockAddr): seq<Sock> {
    if k in s.entries then s.entries[k] else []
  }

  /** Whether a socket is looked at: it is not if it is mute, or if too many connections wait. */
  predicate Admits(s: State, max: nat, sock: Sock) {
    s.accepting && sock.noticePort.Some? && |s.acceptQ| < max
  }

  function Processed(s: State, max: nat, sock: Sock): State {
    if !Admits(s, max, sock) then s
    else
      var k := Key(sock);
      var e := Entry(s, k) + [sock];
      if |e| < 3 then s.(entries := s.entries[k := e])
      else
        var s1 := s.(entries := s.entries - {k}, groups := s.groups + [e]);
        match Assigned(e)
        case Some(c) => s1.(acceptQ := s.acceptQ + [c])
        case None => s1.(accepting := false)
  }

  function Apply(s: State, max: nat, step: Step): State {
    match step
    case Arrive(sock) => Processed(s, max, sock)
    case Take => if s.acceptQ == [] then s else s.(acceptQ := s.acceptQ[1..], taken := s.taken + [s.acceptQ[0]])
  }

  function Run(s: State, max: nat, steps: seq<Step>): State
    decreases |steps|
  {
    if steps == [] then s else Run(Apply(s, max, steps[0]), max, steps[1..])
  }

  function AdmittedBy(s: State, max: nat, step: Step): seq<Sock> {
    if step.Arrive? && Admits(s, max, step.sock) then [step.sock] else []
  }

  /** The sockets that were looked at, in order of arrival. */
  function Admitted(s: State, max: nat, steps: seq<Step>): seq<Sock>
    decreases |steps|
  {
    if steps == [] then []
    else
      AdmittedBy(s, max, steps[0]) + Admitted(Apply(s, max, steps[0]), max, steps[1..])
  }

  /** The sockets with a key, in order. */
  function Of(socks: seq<Sock>, k: SockAddr): seq<Sock> {
    if socks == [] then []
    else (if HasKey(socks[0], k) then [socks[0]] else []) + Of(socks[1..], k)
  }

  /** The sockets of a client, in order. */
  function OfClient(socks: seq<Sock>, inet: InetAddr, port: u16): seq<Sock> {
    if socks == [] then []
    else (if FromClient(socks[0], inet, port) then [socks[0]] else []) + OfClient(socks[1..], inet, port)
  }

  lemma {:induction false} OfClientHasKey(socks: seq<Sock>, inet: InetAddr, port: u16)
    ensures OfClient(socks, inet, port) == Of(socks, SockAddr.Sock(inet, port))
  {
    if socks != [] {
      OfClientHasKey(socks[1..], inet, port);
    }
  }

  function Flat(groups: seq<seq<Sock>>): seq<Sock> {
    if groups == [] then [] else groups[0] + Flat(groups[1..])
  }

  lemma Assoc(a: seq<Sock>, b: seq<Sock>, c: seq<Sock>)
    ensures a + b + c == a + (b + c) && a + [] == a
  {
  }

  lemma {:induction false} OfConcat(s: seq<Sock>, t: seq<Sock>, k: SockAddr)
    ensures Of(s + t, k) == Of(s, k) + Of(t, k)
  {
    if s == [] {
      assert s + t == t;
    } else {
      assert (s + t)[1..] == s[1..] + t;
      OfConcat(s[1..], t, k);
      Assoc(if HasKey(s[0], k) then [s[0]] else [], Of(s[1..], k), Of(t, k));
    }
  }

  lemma {:induction false} FlatSnoc(groups: seq<seq<Sock>>, g: seq<Sock>)
    ensures Flat(groups + [g]) == Flat(groups) + g
  {
    if groups == [] {
      assert Flat([g]) == g + Flat([]);
    } else {
      assert (groups + [g])[1..] == groups[1..] + [g];
      FlatSnoc(groups[1..], g);
    }
  }

  ghost predicate AllOf(socks: seq<Sock>, k: SockAddr) {
    forall i :: 0 <= i < |socks| ==> HasKey(socks[i], k)
  }

  lemma {:induction false} OfAll(socks: seq<Sock>, k: SockAddr, other: SockAddr)
    requires AllOf(socks, k)
    ensures Of(socks, other) == if k == other then socks else []
  {
    if socks != [] {
      OfAll(socks[1..], k, other);
    }
  }

  /** What a group is: three sockets with one key. */
  ghost predicate IsGroup(g: seq<Sock>) {
    |g| == 3 && g[0].noticePort.Some? && AllOf(g, Key(g[0]))
  }

  ghost predicate Made(c: Conn, g: seq<Sock>) {
    Assigned(g) == Some(c)
  }

  ghost predicate EntriesInv(s: State) {
    forall k :: k in s.entries ==> 0 < |s.entries[k]| < 3 && AllOf(s.entries[k], k)
  }

  /** The connections `conns` were made of the groups, in order, except for a last one that failed. */
  ghost predicate MadeOf(conns: seq<Conn>, groups: seq<seq<Sock>>, accepting: bool) {
    && (forall i :: 0 <= i < |groups| ==> IsGroup(groups[i]))
    && |groups| == |conns| + (if accepting then 0 else 1)
    && (forall i :: 0 <= i < |conns| ==> Made(conns[i], groups[i]))
    && (!accepting ==> Assigned(groups[|groups| - 1]).None?)
  }

  ghost predicate GroupsInv(s: State) {
    MadeOf(s.taken + s.acceptQ, s.groups, s.accepting)
  }

  ghost predicate Inv(s: State) {
    EntriesInv(s) && GroupsInv(s)
  }

  /** For every key, the admitted sockets are those of the groups and then those of the entry. */
  ghost predicate Kept(s: State, admitted: seq<Sock>) {
    forall k :: Of(admitted, k) == Of(Flat(s.groups), k) + Entry(s, k)
  }

  lemma EntryAfter(s: State, max: nat, sock: Sock, other: SockAddr)
    requires Inv(s) && Admits(s, max, sock)
    ensures var s', k, e := Processed(s, max, sock), Key(sock), Entry(s, Key(sock)) + [sock];
      && AllOf(e, k) && |e| <= 3
      && s'.groups == (if |e| < 3 then s.groups else s.groups + [e])
      && Entry(s', other) == if other != k then Entry(s, other) else if |e| < 3 then e else []
  {
  }

  lemma GroupsAfter(groups: seq<seq<Sock>>, e: seq<Sock>, k: SockAddr, other: SockAddr)
    requires AllOf(e, k)
    ensures Of(Flat(groups + [e]), other) == Of(Flat(groups), other) + if k == other then e else []
  {
    FlatSnoc(groups, e);
    OfConcat(Flat(groups), e, other);
    OfAll(e, k, other);
  }

  lemma ArriveKeepsAt(s: State, max: nat, sock: Sock, admitted: seq<Sock>, other: SockAddr)
    requires Inv(s) && Admits(s, max, sock)
    requires Of(admitted, other) == Of(Flat(s.groups), other) + Entry(s, other)
    ensures var s' := Processed(s, max, sock);
      Of(admitted + [sock], other) == Of(Flat(s'.groups), other) + Entry(s', other)
  {
    var k, flat, e := Key(sock), Of(Flat(s.groups), other), Entry(s, Key(sock)) + [sock];
    EntryAfter(s, max, sock, other);
    OfConcat(admitted, [sock], other);
    OfAll([sock], k, other);
    GroupsAfter(s.groups, e, k, other);
    Assoc(flat, Entry(s, other), [sock]);
    Assoc(flat, Entry(s, other), []);
    Assoc(flat, e, []);
  }

  lemma ArriveKeeps(s: State, max: nat, sock: Sock, admitted: seq<Sock>)
    requires Inv(s) && Kept(s, admitted) && Admits(s, max, sock)
    ensures Kept(Processed(s, max, sock), admitted + [sock])
  {
    forall other
      ensures Of(admitted + [sock], other) ==
                Of(Flat(Processed(s, max, sock).groups), other) + Entry(Processed(s, max, sock), other)
    {
      ArriveKeepsAt(s, max, sock, admitted, other);
    }
  }

  lemma GroupAdded(conns: seq<Conn>, groups: seq<seq<Sock>>, e: seq<Sock>)
    requires MadeOf(conns, groups, true) && IsGroup(e)
    ensures match Assigned(e)
      case Some(c) => MadeOf(conns + [c], groups + [e], true)
      case None => MadeOf(conns, groups + [e], false)
  {
  }

  lemma ArriveInv(s: State, max: nat, sock: Sock)
    requires Inv(s) && Admits(s, max, sock)
    ensures Inv(Processed(s, max, sock))
  {
    var k := Key(sock);
    var e := Entry(s, k) + [sock];
    assert AllOf(e, k) && |e| <= 3;
    if |e| == 3 {
      GroupAdded(s.taken + s.acceptQ, s.groups, e);
      if Complete(e) {
        var c := Assigned(e).value;
        assert s.taken + s.acceptQ + [c] == s.taken + (s.acceptQ + [c]);
      }
    }
  }

  lemma TakeKeeps(s: State, max: nat, admitted: seq<Sock>)
    requires Kept(s, admitted)
    ensures Kept(Apply(s, max, Take), admitted)
  {
    var s' := Apply(s, max, Take);
    forall k
      ensures Of(admitted, k) == Of(Flat(s'.groups), k) + Entry(s', k)
    {
      assert Entry(s', k) == Entry(s, k);
    }
  }

  lemma TakeInv(s: State, max: nat)
    requires Inv(s)
    ensures Inv(Apply(s, max, Take))
  {
    var s' := Apply(s, max, Take);
    assert s'.taken + s'.acceptQ == s.taken + s.acceptQ;
  }

  lemma StepInv(s: State, max: nat, step: Step, admitted: seq<Sock>)
    requires Inv(s) && Kept(s, admitted)
    ensures Inv(Apply(s, max, step)) && Kept(Apply(s, max, step), admitted + AdmittedBy(s, max, step))
  {
    assert admitted + [] == admitted;
    if step.Take? {
      TakeInv(s, max);
      TakeKeeps(s, max, admitted);
    } else if Admits(s, max, step.sock) {
      ArriveKeeps(s, max, step.sock, admitted);
      ArriveInv(s, max, step.sock);
    }
  }

  lemma {:induction false} RunInv(s: State, max: nat, steps: seq<Step>, admitted: seq<Sock>)
    requires Inv(s) && Kept(s, admitted)
    ensures Inv(Run(s, max, steps)) && Kept(Run(s, max, steps), admitted + Admitted(s, max, steps))
    decreases |steps|
  {
    if steps == [] {
      assert admitted + [] == admitted;
    } else {
      var s', now := Apply(s, max, steps[0]), AdmittedBy(s, max, steps[0]);
      StepInv(s, max, steps[0], admitted);
      RunInv(s', max, steps[1..], admitted + now);
      Assoc(admitted, now, Admitted(s', max, steps[1..]));
    }
  }

  /** No more connections wait than may. */
  lemma {:induction false} WaitingBounded(s: State, max: nat, steps: seq<Step>)
    requires |s.acceptQ| <= max
    ensures |Run(s, max, steps).acceptQ| <= max
    decreases |steps|
  {
    if steps != [] {
      WaitingBounded(Apply(s, max, steps[0]), max, steps[1..]);
    }
  }

  ghost predicate OneClient(g: seq<Sock>) {
    forall i, j :: 0 <= i < |g| && 0 <= j < |g| ==> SameClient(g[i], g[j])
  }

  lemma GroupIsOneClient(g: seq<Sock>)
    requires IsGroup(g)
    ensures OneClient(g)
  {
    forall i, j | 0 <= i < |g| && 0 <= j < |g|
      ensures SameClient(g[i], g[j])
    {
      assert HasKey(g[i], Key(g[0])) && HasKey(g[j], Key(g[0]));
    }
  }

  /** In every run of arrivals and acceptances, whatever their order: the admitted sockets of a client, in
      order of arrival, are those of the client's completed groups and then fewer than three that wait;
      each group holds three sockets of one client; and the connections are those made of the groups, in
      order, each socket in its place. The server goes on accepting as long as every group has its three
      places filled. No more connections wait than may. */
  lemma Regroups(max: nat, steps: seq<Step>, inet: InetAddr, port: u16)
    ensures var s, admitted := Run(START, max, steps), Admitted(START, max, steps);
      var conns, waiting := s.taken + s.acceptQ, Entry(s, SockAddr.Sock(inet, port));
      && OfClient(admitted, inet, port) == OfClient(Flat(s.groups), inet, port) + waiting && |waiting| < 3
      && (forall x :: x in waiting ==> FromClient(x, inet, port))
      && (forall i :: 0 <= i < |s.groups| ==> |s.groups[i]| == 3 && OneClient(s.groups[i]))
      && |conns| <= |s.groups| <= |conns| + 1
      && (forall i :: 0 <= i < |conns| ==> Matches(conns[i], s.groups[i]))
      && (s.accepting <==> |conns| == |s.groups|)
      && (s.accepting <==> forall i :: 0 <= i < |s.groups| ==> Complete(s.groups[i]))
      && |s.acceptQ| <= max
  {
    var k := SockAddr.Sock(inet, port);
    RunInv(START, max, steps, []);
    var s, admitted := Run(START, max, steps), Admitted(START, max, steps);
    assert [] + admitted == admitted;
    OfClientHasKey(admitted, inet, port);
    OfClientHasKey(Flat(s.groups), inet, port);
    assert Of(admitted, k) == Of(Flat(s.groups), k) + Entry(s, k);
    forall x | x in Entry(s, k)
      ensures FromClient(x, inet, port)
    {
      assert HasKey(x, k);
    }
    forall i | 0 <= i < |s.groups|
      ensures |s.groups[i]| == 3 && OneClient(s.groups[i])
    {
      GroupIsOneClient(s.groups[i]);
    }
    ConnsMatch(s);
    WaitingBounded(START, max, steps);
  }

  function Arrivals(steps: seq<Step>): seq<Sock> {
    if steps == [] then []
    else (if steps[0].Arrive? then [steps[0].sock] else []) + Arrivals(steps[1..])
  }

  lemma {:induction false} NeverAcceptsAgain(s: State, max: nat, steps: seq<Step>)
    ensures Run(s, max, steps).accepting ==> s.accepting
    decreases |steps|
  {
    if steps != [] {
      NeverAcceptsAgain(Apply(s, max, steps[0]), max, steps[1..]);
    }
  }

  /** As long as the server accepts and there is room for a connection whenever a socket arrives, for which it
      suffices that fewer sockets have arrived than connections may wait, no socket is turned away that sent a
      port. */
  lemma {:induction false} ArrivalsAdmitted(s: State, max: nat, steps: seq<Step>)
    requires Run(s, max, steps).accepting && |s.acceptQ| + |Arrivals(steps)| <= max
    requires forall x :: x in Arrivals(steps) ==> x.noticePort.Some?
    ensures Admitted(s, max, steps) == Arrivals(steps)
    decreases |steps|
  {
    if steps != [] {
      NeverAcceptsAgain(s, max, steps);
      var s1 := Apply(s, max, steps[0]);
      if steps[0].Arrive? {
        assert Arrivals(steps) == [steps[0].sock] + Arrivals(steps[1..]);
      } else {
        assert Arrivals(steps) == [] + Arrivals(steps[1..]) == Arrivals(steps[1..]);
      }
      ArrivalsAdmitted(s1, max, steps[1..]);
    }
  }

  lemma ConnsMatch(s: State)
    requires Inv(s)
    ensures var conns := s.taken + s.acceptQ;
      && |conns| <= |s.groups| <= |conns| + 1
      && (forall i :: 0 <= i < |conns| ==> Matches(conns[i], s.groups[i]) && Complete(s.groups[i]))
      && (s.accepting <==> |conns| == |s.groups|)
      && (s.accepting <==> forall i :: 0 <= i < |s.groups| ==> Complete(s.groups[i]))
  {
    var conns := s.taken + s.acceptQ;
    forall i | 0 <= i < |conns|
      ensures Matches(conns[i], s.groups[i]) && Complete(s.groups[i])
    {
      assert Made(conns[i], s.groups[i]);
      AssignedMatches(s.groups[i], conns[i]);
    }
  }

  predicate GroupHas(g: seq<Sock>, k: SockAddr) {
    g != [] && HasKey(g[0], k)
  }

  lemma {:induction false} GroupOf(groups: seq<seq<Sock>>, k: SockAddr) returns (i: nat)
    requires forall j :: 0 <= j < |groups| ==> IsGroup(groups[j])
    ensures |Of(Flat(groups), k)| % 3 == 0
    ensures |Of(Flat(groups), k)| == 3 ==> i < |groups| && groups[i] == Of(Flat(groups), k)
    ensures |Of(Flat(groups), k)| == 3 ==> forall j :: 0 <= j < |groups| && j != i ==> !GroupHas(groups[j], k)
    ensures |Of(Flat(groups), k)| == 0 ==> forall j :: 0 <= j < |groups| ==> !GroupHas(groups[j], k)
  {
    i := 0;
    if groups != [] {
      var g, rest := groups[0], groups[1..];
      OfConcat(g, Flat(rest), k);
      OfAll(g, Key(g[0]), k);
      assert Of(Flat(groups), k) == if Key(g[0]) == k then g + Of(Flat(rest), k) else Of(Flat(rest), k);
      var j := GroupOf(rest, k);
      if Key(g[0]) != k {
        i := j + 1;
      }
    }
  }

  lemma ConnOf(s: State, k: SockAddr, socks: seq<Sock>) returns (i: nat)
    requires Inv(s) && Of(Flat(s.groups), k) + Entry(s, k) == socks && |socks| == 3 && Complete(socks)
    ensures k !in s.entries
    ensures i < |s.taken + s.acceptQ| && Matches((s.taken + s.acceptQ)[i], socks)
    ensures forall j :: 0 <= j < |s.taken + s.acceptQ| && j != i ==> !HasKey((s.taken + s.acceptQ)[j].notice, k)
  {
    var conns := s.taken + s.acceptQ;
    i := GroupOf(s.groups, k);
    assert |Entry(s, k)| < 3;
    assert Entry(s, k) == [] && Of(Flat(s.groups), k) == socks;
    ConnsMatch(s);
    forall j | 0 <= j < |conns| && j != i
      ensures !HasKey(conns[j].notice, k)
    {
      KeyOfConn(conns[j], s.groups[j], k);
    }
  }

  lemma KeyOfConn(c: Conn, g: seq<Sock>, k: SockAddr)
    requires Matches(c, g) && IsGroup(g)
    ensures HasKey(c.notice, k) <==> GroupHas(g, k)
  {
    var n :| 0 <= n < |g| && g[n] == c.notice;
    assert HasKey(g[n], Key(g[0]));
  }

  /** If exactly three sockets of a client were admitted, with the identifiers 0, 1 and 2 in whatever order
      and between whatever other sockets, then there is exactly one connection of that client; it consists
      of them, each in its place, and no other connection has any socket of the client. */
  lemma ClientConnects(max: nat, steps: seq<Step>, inet: InetAddr, port: u16) returns (i: nat)
    requires |OfClient(Admitted(START, max, steps), inet, port)| == 3
    requires Complete(OfClient(Admitted(START, max, steps), inet, port))
    ensures var s, socks := Run(START, max, steps), OfClient(Admitted(START, max, steps), inet, port);
      var conns := s.taken + s.acceptQ;
      && Entry(s, SockAddr.Sock(inet, port)) == []
      && i < |conns| && Matches(conns[i], socks)
      && forall j :: 0 <= j < |conns| && j != i ==>
           && !FromClient(conns[j].notice, inet, port)
           && !FromClient(conns[j].request, inet, port)
           && !FromClient(conns[j].data, inet, port)
  {
    var k := SockAddr.Sock(inet, port);
    RunInv(START, max, steps, []);
    var s, admitted := Run(START, max, steps), Admitted(START, max, steps);
    assert [] + admitted == admitted;
    OfClientHasKey(admitted, inet, port);
    i := ConnOf(s, k, Of(admitted, k));
    ConnsMatch(s);
    var conns := s.taken + s.acceptQ;
    forall j | 0 <= j < |conns| && j != i
      ensures !FromClient(conns[j].notice, inet, port)
      ensures !FromClient(conns[j].request, inet, port) && !FromClient(conns[j].data, inet, port)
    {
      assert !HasKey(conns[j].notice, k);
      ConnIsOneClient(conns[j], s.groups[j], k);
    }
  }

  lemma ConnIsOneClient(c: Conn, g: seq<Sock>, k: SockAddr)
    requires Matches(c, g) && IsGroup(g) && !HasKey(c.notice, k)
    ensures !HasKey(c.request, k) && !HasKey(c.data, k)
  {
    var l :| 0 <= l < |g| && g[l] == c.notice;
    var m :| 0 <= m < |g| && g[m] == c.request;
    var n :| 0 <= n < |g| && g[n] == c.data;
    assert HasKey(g[l], Key(g[0])) && HasKey(g[m], Key(g[0])) && HasKey(g[n], Key(g[0]));
  }

  // The objects of the source

  datatype FactoryEntry = FactoryEntry(n: nat, xprts: seq<Sock>)

  class PeerConnFactory {
    var peerConns: map<SockAddr, FactoryEntry>

    ghost predicate Valid()
      reads this
    {
      forall k :: k in peerConns ==> 0 < peerConns[k].n <= 3 && |peerConns[k].xprts| == 3
    }

    /** The sockets of the entries. */
    ghost function Value(): map<SockAddr, seq<Sock>>
      requires Valid()
      reads this
    {
      map k | k in peerConns :: peerConns[k].xprts[..peerConns[k].n]
    }

    constructor ()
      ensures Valid() && Value() == map[]
    {
      peerConns := map[];
    }

    /** Adds a socket to its entry, which must have room; the result says whether that fills it. */
    method Add(xprt: Sock) returns (complete: bool)
      requires Valid() && xprt.noticePort.Some?
      requires Key(xprt) in Value() ==> |Value()[Key(xprt)]| < 3
      modifies this
      ensures Valid()
      ensures var key, was := Key(xprt), old(Value());
                var e := (if key in was then was[key] else []) + [xprt];
                Value() == was[key := e] && (complete <==> |e| == 3)
    {
      var key := Key(xprt);
      var entry := if key in peerConns then peerConns[key] else FactoryEntry(0, [xprt, xprt, xprt]);
      ghost var e := entry.xprts[..entry.n] + [xprt];
      entry := FactoryEntry(entry.n + 1, entry.xprts[entry.n := xprt]);
      assert entry.xprts[..entry.n] == e;
      peerConns := peerConns[key := entry];
      complete := entry.n == 3;
    }

    method Get(key: SockAddr) returns (xprts: seq<Sock>)
      requires Valid() && key in Value() && |Value()[key]| == 3
      modifies this
      ensures xprts == old(Value())[key]
      ensures Valid() && Value() == old(Value()) - {key}
    {
      xprts := peerConns[key].xprts;
      assert xprts == xprts[..3];
      peerConns := peerConns - {key};
    }
  }

  /** Sets the transports from the identifiers that are read of them. */
  method SetXprts(xprts: seq<Sock>) returns (c: Option<Conn>)
    requires |xprts| == 3
    ensures c == Assigned(xprts)
  {
    var xprtIndexes := new int[3](_ => -1);
    for index := 0 to 3
      invariant forall id: u8 :: 0 <= id < 3 ==> -1 <= xprtIndexes[id] < index
      invariant forall id: u8 :: 0 <= id < 3 && xprtIndexes[id] >= 0 ==> xprts[xprtIndexes[id]].xprtId == Some(id)
      invariant forall i :: 0 <= i < index ==> xprts[i].xprtId.Some? && xprts[i].xprtId.value < 3
      invariant forall i :: 0 <= i < index ==> xprtIndexes[xprts[i].xprtId.value] >= 0
    {
      var xprtId := xprts[index].xprtId;
      if xprtId == None || xprtId.value >= 3 {
        NotComplete(xprts, index);
        return None;
      }
      xprtIndexes[xprtId.value] := index;
    }
    if xprtIndexes[0] < 0 || xprtIndexes[1] < 0 || xprtIndexes[2] < 0 {
      return None;
    }
    var i, j, k := xprtIndexes[0], xprtIndexes[1], xprtIndexes[2];
    var conn := Conn(xprts[i], xprts[j], xprts[k]);
    ThreePlaces(xprts, i, j, k);
    AssignedMatches(xprts, conn);
    c := Some(conn);
  }

  lemma NotComplete(xprts: seq<Sock>, index: nat)
    requires |xprts| == 3 && index < 3 && (xprts[index].xprtId == None || xprts[index].xprtId.value >= 3)
    ensures !Complete(xprts)
  {
  }

  lemma ThreePlaces(xprts: seq<Sock>, i: nat, j: nat, k: nat)
    requires |xprts| == 3 && i < 3 && j < 3 && k < 3
    requires xprts[i].xprtId == Some(0) && xprts[j].xprtId == Some(1) && xprts[k].xprtId == Some(2)
    ensures Matches(Conn(xprts[i], xprts[j], xprts[k]), xprts)
  {
    assert xprts == [xprts[0], xprts[1], xprts[2]];
    assert Elems(xprts) == {xprts[i], xprts[j], xprts[k]};
  }

  class PeerConnSrvr {
    const factory: PeerConnFactory
    const maxPendConn: i32
    var acceptQ: seq<Conn>
    var accepting: bool
    ghost var groups: seq<seq<Sock>>
    ghost var taken: seq<Conn>

    ghost predicate Valid()
      reads this, factory
    {
      factory.Valid() && forall k :: k in factory.Value() ==> |factory.Value()[k]| < 3
    }

    ghost function Value(): State
      requires Valid()
      reads this, factory
    {
      State(factory.Value(), acceptQ, accepting, groups, taken)
    }

    constructor (maxPendConn: i32)
      ensures Valid() && Value() == START && this.maxPendConn == maxPendConn && fresh(factory)
    {
      this.maxPendConn := maxPendConn;
      factory := new PeerConnFactory();
      acceptQ, accepting, groups, taken := [], true, [], [];
    }

    /** Processes an accepted socket. An exception ends the accepting. */
    method ProcessSock(sock: Sock)
      requires Valid()
      modifies this, factory
      ensures Valid() && Value() == Processed(old(Value()), ToSize(maxPendConn), sock)
      ensures Value() == old(Value()) <==>
                !old(accepting) || sock.noticePort.None? || |old(acceptQ)| >= ToSize(maxPendConn)
    {
      if accepting && sock.noticePort.Some? && |acceptQ| < ToSize(maxPendConn) {
        var complete := factory.Add(sock);
        if complete {
          var xprts := factory.Get(Key(sock));
          assert factory.Value() == old(factory.Value()) - {Key(sock)};
          var conn := SetXprts(xprts);
          groups := groups + [xprts];
          if conn.Some? {
            acceptQ := acceptQ + [conn.value];
          } else {
            accepting := false;
          }
        }
      }
    }

    /** The next connection, if there is one; the source waits for one. */
    method Accept() returns (conn: Option<Conn>)
      requires Valid()
      modifies this
      ensures Valid() && Value() == Apply(old(Value()), ToSize(maxPendConn), Take)
      ensures conn == if old(acceptQ) == [] then None else Some(old(acceptQ)[0])
      ensures old(acceptQ) != [] ==> acceptQ == old(acceptQ)[1..] && taken == old(taken) + [conn.value]
    {
      if acceptQ == [] {
        return None;
      }
      conn, acceptQ, taken := Some(acceptQ[0]), acceptQ[1..], taken + [acceptQ[0]];
    }
  }
}
