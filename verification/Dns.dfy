/** Single-flight name resolution of the backend loop (core/fp_dns.go): for each host
    one connection asks, the others wait in its list. */
module Dns {
  import opened DistinctLists

  type Host = nat

  datatype State = Resolving | Connecting | Closed

  /** A backend connection and its `fpDNSQuery`. `asking` is that there is one. */
  datatype Conn = Conn(state: State, host: Host, asking: bool, server: nat, aaaa: bool, waiters: seq<nat>)

  /** A connection that has begun to resolve its host. */
  function Asking(h: Host): Conn {
    Conn(Resolving, h, true, 0, false, [])
  }

  predicate Live(conns: map<nat, Conn>, c: nat) {
    c in conns && conns[c].state == Resolving
  }

  // ----- What holds between events

  /** A registered querier is resolving its host. */
  ghost predicate Queriers(conns: map<nat, Conn>, inflight: map<Host, nat>) {
    forall h :: h in inflight ==> Live(conns, inflight[h]) && conns[inflight[h]].host == h
  }

  /** Every resolving connection asks, and is its host's querier or listed by it;
      but for those just taken off a list, whose host has no querier. */
  ghost predicate Reached(conns: map<nat, Conn>, inflight: map<Host, nat>, loose: set<nat>) {
    forall c :: Live(conns, c) ==>
      && conns[c].asking
      && if c in loose then conns[c].host !in inflight
         else conns[c].host in inflight && (inflight[conns[c].host] == c || Lists(conns, inflight[conns[c].host], c))
  }

  predicate Lists(conns: map<nat, Conn>, q: nat, c: nat) {
    q in conns && c in conns[q].waiters
  }

  /** Only registered queriers have waiters, others of the same host, once each. */
  ghost predicate Listed(conns: map<nat, Conn>, inflight: map<Host, nat>) {
    forall c :: c in conns && conns[c].waiters != [] ==>
      && conns[c].host in inflight && inflight[conns[c].host] == c
      && WaitersOf(conns, c, conns[c].waiters)
  }

  predicate WaitersOf(conns: map<nat, Conn>, c: nat, ws: seq<nat>)
    requires c in conns
  {
    && NoRepeats(ws) && c !in ws
    && forall w :: w in ws ==> w in conns && conns[w].host == conns[c].host
  }

  /** A connection that has been dialed asks no more. */
  ghost predicate Quiet(conns: map<nat, Conn>) {
    forall c :: c in conns && conns[c].state == Connecting ==> !conns[c].asking
  }

  ghost predicate Inv(conns: map<nat, Conn>, inflight: map<Host, nat>, loose: set<nat>) {
    Queriers(conns, inflight) && Reached(conns, inflight, loose) && Listed(conns, inflight) && Quiet(conns)
  }

  /** The resolving connections of a host. */
  ghost function Of(conns: map<nat, Conn>, h: Host): set<nat> {
    set c | c in conns && conns[c].state == Resolving && conns[c].host == h
  }

  ghost function AllLive(conns: map<nat, Conn>): set<nat> {
    set c | c in conns && conns[c].state == Resolving
  }

  // ----- Steps

  /** A querier leaves the register: those it listed hang loose. */
  lemma Detached(conns: map<nat, Conn>, inflight: map<Host, nat>, c: nat)
    requires Inv(conns, inflight, {}) && c in conns && conns[c].host in inflight && inflight[conns[c].host] == c
    ensures Inv(conns[c := conns[c].(waiters := [])], inflight - {conns[c].host}, Of(conns, conns[c].host))
    ensures forall w :: w in Of(conns, conns[c].host) ==> w == c || w in conns[c].waiters
    ensures WaitersOf(conns, c, conns[c].waiters)
  {
  }

  /** A loose connection stops resolving. */
  lemma Settled(conns: map<nat, Conn>, inflight: map<Host, nat>, loose: set<nat>, c: nat, now: Conn)
    requires Inv(conns, inflight, loose) && c in loose && c in conns && conns[c].waiters == []
    requires now.state != Resolving && now.host == conns[c].host && now.waiters == []
             && (now.state == Connecting ==> !now.asking)
    requires conns[c].host !in inflight
    ensures Inv(conns[c := now], inflight, loose - {c})
  {
  }

  /** One that is only listed, or not resolving at all, stops. */
  lemma Stopped(conns: map<nat, Conn>, inflight: map<Host, nat>, loose: set<nat>, c: nat, now: Conn)
    requires Inv(conns, inflight, loose) && c in conns && conns[c].waiters == [] && now.waiters == []
    requires conns[c].host in inflight ==> inflight[conns[c].host] != c
    requires now.state != Resolving && now.host == conns[c].host && (now.state == Connecting ==> !now.asking)
    ensures Inv(conns[c := now], inflight, loose)
  {
  }

  /** A loose connection takes the register with the others on its list. */
  lemma Promoted(conns: map<nat, Conn>, inflight: map<Host, nat>, loose: set<nat>, w: nat, rest: seq<nat>, now: Conn)
    requires Inv(conns, inflight, loose) && w in loose && Live(conns, w) && WaitersOf(conns, w, rest)
    requires forall c :: c in loose && Live(conns, c) ==> conns[c].host == conns[w].host && (c == w || c in rest)
    requires now == conns[w].(server := now.server, aaaa := now.aaaa, waiters := rest)
    ensures Inv(conns[w := now], inflight[conns[w].host := w], {})
  {
  }

  /** A new connection waits with whoever asks for its host. */
  lemma JoinedWaiter(conns: map<nat, Conn>, inflight: map<Host, nat>, c: nat, h: Host)
    requires Inv(conns, inflight, {}) && c !in conns && h in inflight
    ensures var x, q := Asking(h), inflight[h];
            && q in conns && q != c
            && Inv(conns[c := x][q := conns[q].(waiters := conns[q].waiters + [c])], inflight, {})
  {
    hide Listed, WaitersOf;
    assert Live(conns, inflight[h]);
    JoinedList(conns, inflight, c, h);
  }

  /** Its place at the end of the list. */
  lemma JoinedList(conns: map<nat, Conn>, inflight: map<Host, nat>, c: nat, h: Host)
    requires Queriers(conns, inflight) && Listed(conns, inflight) && c !in conns && h in inflight
    ensures var q := inflight[h];
            && q in conns
            && Listed(conns[c := Asking(h)][q := conns[q].(waiters := conns[q].waiters + [c])], inflight)
  {
    var q := inflight[h];
    assert Live(conns, q);
    if conns[q].waiters == [] {
      assert [] + [c] == [c];
    } else {
      assert c !in conns[q].waiters;
    }
    RepeatsSnoc(conns[q].waiters, c);
  }

  /** A new connection asks for its host. */
  lemma JoinedQuerier(conns: map<nat, Conn>, inflight: map<Host, nat>, c: nat, h: Host)
    requires Inv(conns, inflight, {}) && c !in conns && h !in inflight
    ensures Inv(conns[c := Asking(h)], inflight[h := c], {})
  {
  }

  /** The next server, or the other kind of address. */
  lemma Asked(conns: map<nat, Conn>, inflight: map<Host, nat>, c: nat, server: nat, aaaa: bool)
    requires Inv(conns, inflight, {}) && c in conns
    ensures Inv(conns[c := conns[c].(server := server, aaaa := aaaa)], inflight, {})
  {
  }

  // ----- Outcomes

  /** Everything the outside decides while one event is handled: whether a query
      can be sent to a server, whether an address from an earlier answer is still
      known, and whether a connection can be dialed. */
  datatype World = World(sends: nat -> bool, stale: bool, dials: nat -> bool)

  /** What a resolving connection of a settled host becomes. */
  function Outcome(w: World, c: nat, resolved: bool): State {
    if resolved && w.dials(c) then Connecting else Closed
  }

  /** All connections that were resolving a host have been reached, but for `rest`,
      and no other has changed. */
  ghost predicate Settling(was: map<nat, Conn>, now: map<nat, Conn>, h: Host, w: World, resolved: bool,
                           rest: set<nat>) {
    && now.Keys == was.Keys && rest <= Of(was, h)
    && (forall c :: c in was && (c !in Of(was, h) || c in rest) ==> now[c] == was[c])
    && (forall c :: c in Of(was, h) && c !in rest ==>
          c in now && now[c].state == Outcome(w, c, resolved) && now[c].host == h && now[c].waiters == [])
  }

  /** The host is settled. */
  ghost predicate SettledHost(was: map<nat, Conn>, now: map<nat, Conn>, h: Host, w: World, resolved: bool) {
    Settling(was, now, h, w, resolved, {})
  }

  lemma SettlingOf(was: map<nat, Conn>, now: map<nat, Conn>, h: Host, w: World, resolved: bool, rest: set<nat>)
    requires Settling(was, now, h, w, resolved, rest)
    ensures Of(now, h) == rest && AllLive(now) <= AllLive(was)
  {
  }

  lemma FewerLive(a: set<nat>, b: set<nat>)
    requires a <= b
    ensures |a| <= |b| && (a != b ==> |a| < |b|)
  {
    assert b == a + (b - a);
    if a != b {
      var x :| x in b - a;
    }
  }

  /** One more is reached. */
  lemma SettlingStep(was: map<nat, Conn>, now: map<nat, Conn>, h: Host, w: World, resolved: bool, rest: set<nat>,
                     c: nat, x: Conn)
    requires Settling(was, now, h, w, resolved, rest) && c in rest
    requires x.state == Outcome(w, c, resolved) && x.host == h && x.waiters == []
    ensures Settling(was, now[c := x], h, w, resolved, rest - {c})
  {
  }

  /** Of a list, those that still resolve are those not yet reached. */
  lemma RestIs(was: map<nat, Conn>, now: map<nat, Conn>, inflight: map<Host, nat>, h: Host, w: World, resolved: bool,
               rest: set<nat>, x: nat)
    requires Settling(was, now, h, w, resolved, rest) && x in was && was[x].host == h
    requires Inv(now, inflight, rest) && h !in inflight
    ensures x in rest <==> Live(now, x)
    ensures Live(now, x) ==> now[x].host == h && now[x].waiters == []
  {
  }

  /** The querier is off the register and settled; its list is what is left. */
  lemma QuerierSettled(was: map<nat, Conn>, inflight: map<Host, nat>, c: nat, x: Conn, w: World, resolved: bool)
    requires Inv(was, inflight, {}) && c in was && was[c].host in inflight && inflight[was[c].host] == c
    requires x.state == Outcome(w, c, resolved) && x.host == was[c].host && x.waiters == [] && (resolved ==> !x.asking)
    ensures var h := was[c].host;
            var rest := Of(was, h) - {c};
            && Inv(was[c := x], inflight - {h}, rest) && Settling(was, was[c := x], h, w, resolved, rest)
            && (forall y :: y in rest ==> y in was[c].waiters)
            && (forall y :: y in was[c].waiters ==> y in was && was[y].host == h)
  {
    var h := was[c].host;
    Detached(was, inflight, c);
    var mid := was[c := was[c].(waiters := [])];
    assert c in Of(was, h) by { assert Live(was, c); }
    Settled(mid, inflight - {h}, Of(was, h), c, x);
    assert mid[c := x] == was[c := x];
    hide Inv;
  }

  /** One more of the list is settled. */
  lemma WaiterSettled(was: map<nat, Conn>, now: map<nat, Conn>, inflight: map<Host, nat>, h: Host, w: World,
                      resolved: bool,
                      rest: set<nat>, x: nat, v: Conn)
    requires Inv(now, inflight, rest) && Settling(was, now, h, w, resolved, rest) && h !in inflight && x in rest
    requires v.state == Outcome(w, x, resolved) && v.host == h && v.waiters == [] && (resolved ==> !v.asking)
    ensures x in now && now[x].host == h && now[x].waiters == []
    ensures Inv(now[x := v], inflight, rest - {x}) && Settling(was, now[x := v], h, w, resolved, rest - {x})
  {
    SettlingStep(was, now, h, w, resolved, rest, x, v);
    assert x in now && now[x].host == h;
    assert now[x].waiters == [];
    Settled(now, inflight, rest, x, v);
  }

  /** The first connection of a list that still resolves, or -1. */
  function FirstLive(conns: map<nat, Conn>, ws: seq<nat>): (i: int)
    ensures -1 <= i < |ws|
    ensures i >= 0 ==> Live(conns, ws[i]) && forall k :: 0 <= k < i ==> !Live(conns, ws[k])
    ensures i < 0 ==> forall k :: 0 <= k < |ws| ==> !Live(conns, ws[k])
  {
    if ws == [] then -1
    else if Live(conns, ws[0]) then 0
    else
      var k := FirstLive(conns, ws[1..]);
      if k < 0 then -1 else k + 1
  }

  class Loop {
    /** How many name servers there are. */
    const servers: nat
    var conns: map<nat, Conn>
    var inflight: map<Host, nat>

    ghost predicate Valid()
      reads this
    {
      Inv(conns, inflight, {})
    }

    predicate Registered(c: nat)
      reads this
    {
      c in conns && conns[c].host in inflight && inflight[conns[c].host] == c
    }

    /** Some server from this one on can be asked. */
    predicate CanSend(w: World, from: nat) {
      exists s :: from <= s < servers && w.sends(s)
    }

    constructor (servers: nat)
      ensures Valid() && conns == map[] && inflight == map[]
    {
      this.servers := servers;
      conns, inflight := map[], map[];
    }

    /** `dnsDetach` */
    method Detach(c: nat) returns (waiters: seq<nat>)
      requires c in conns
      modifies this
      ensures if old(Registered(c)) then
                && waiters == old(conns)[c].waiters && inflight == old(inflight) - {old(conns)[c].host}
                && conns == old(conns)[c := old(conns)[c].(waiters := [])]
              else waiters == [] && inflight == old(inflight) && conns == old(conns)
    {
      if !Registered(c) { return []; }
      waiters := conns[c].waiters;
      inflight := inflight - {conns[c].host};
      conns := conns[c := conns[c].(waiters := [])];
    }

    /** `dnsFail`: the querier and everyone on its list. */
    method Fail(c: nat, w: World)
      requires Valid() && Registered(c)
      modifies this
      ensures Valid() && inflight == old(inflight) - {old(conns)[c].host}
      ensures SettledHost(old(conns), conns, old(conns)[c].host, w, false)
      decreases |AllLive(conns)|, 1
    {
      hide Inv, Settling, Of, AllLive;
      ghost var was := conns;
      var h := conns[c].host;
      QuerierSettled(was, inflight, c, was[c].(waiters := [], state := Closed), w, false);
      ghost var rest := Of(was, h) - {c};
      IsLive(was, inflight, h);
      var waiters := Detach(c);
      SameLive(was, conns);
      Close(c, w);
      assert conns == was[c := was[c].(waiters := [], state := Closed)];
      assert waiters[0..] == waiters == was[c].waiters;
      for i := 0 to |waiters|
        invariant Inv(conns, inflight, rest) && Settling(was, conns, h, w, false, rest)
        invariant inflight == old(inflight) - {h} && forall x :: x in rest ==> x in waiters[i..]
        invariant forall y :: y in waiters ==> y in was && was[y].host == h
      {
        var x := waiters[i];
        assert waiters[i..] == [x] + waiters[i + 1..] && x in waiters;
        SettlingOf(was, conns, h, w, false, rest);
        FewerLive(AllLive(conns), AllLive(was));
        RestIs(was, conns, inflight, h, w, false, rest, x);
        if Live(conns, x) {
          WaiterSettled(was, conns, inflight, h, w, false, rest, x, conns[x].(state := Closed));
          Close(x, w);
          rest := rest - {x};
        }
      }
      assert waiters[|waiters|..] == [];
      assert rest == {};
    }

    /** `dnsResolved`: the querier is dialed, and everyone on its list. */
    method Resolved(c: nat, w: World)
      requires (Live(conns, c) && conns[c].waiters == []) || Registered(c)
      requires Registered(c) ==> Valid()
      modifies this
      ensures !old(Registered(c)) ==>
                inflight == old(inflight)
                  && conns == old(conns)[c := old(conns)[c].(state := Outcome(w, c, true), asking := false)]
      ensures old(Registered(c)) ==>
                && Valid() && inflight == old(inflight) - {old(conns)[c].host}
                && SettledHost(old(conns), conns, old(conns)[c].host, w, true)
      decreases |AllLive(conns)|, 1
    {
      hide Inv, Settling, Of, AllLive;
      ghost var was, before := conns, inflight;
      ghost var registered := Registered(c);
      var h := conns[c].host;
      if registered {
        QuerierSettled(was, inflight, c,
                       was[c].(waiters := [], state := Outcome(w, c, true), asking := false), w, true);
        IsLive(was, inflight, h);
        InOf(was, c);
      }
      ghost var rest := Of(was, h) - {c};
      var waiters := Detach(c);
      conns := conns[c := conns[c].(asking := false)];
      SameLive(was, conns);
      if w.dials(c) {
        conns := conns[c := conns[c].(state := Connecting)];
      } else {
        Close(c, w);
      }
      if registered {
        assert conns == was[c := was[c].(waiters := [], state := Outcome(w, c, true), asking := false)];
        assert waiters == [] ==> rest == {};
      } else {
        assert conns == was[c := was[c].(state := Outcome(w, c, true), asking := false)];
      }
      if waiters != [] {
        DialWaiters(waiters, h, w, was, rest, c);
      }
    }

    /** The loop of `dnsResolved`. For a connection that was only listed, the list is
        empty. */
    method DialWaiters(waiters: seq<nat>, h: Host, w: World, ghost was: map<nat, Conn>, ghost all: set<nat>,
                       ghost c: nat)
      requires Inv(conns, inflight, all) && Settling(was, conns, h, w, true, all) && h !in inflight
      requires c in Of(was, h) - all && (forall x :: x in all ==> x in waiters)
      requires forall y :: y in waiters ==> y in was && was[y].host == h
      modifies this
      ensures Valid() && inflight == old(inflight) && SettledHost(was, conns, h, w, true)
      decreases |AllLive(was)|, 0
    {
      hide Inv, Settling, Of, AllLive;
      ghost var rest := all;
      assert waiters[0..] == waiters;
      for i := 0 to |waiters|
        invariant Inv(conns, inflight, rest) && Settling(was, conns, h, w, true, rest) && inflight == old(inflight)
        invariant c in Of(was, h) - rest && forall x :: x in rest ==> x in waiters[i..]
      {
        var x := waiters[i];
        assert waiters[i..] == [x] + waiters[i + 1..] && x in waiters;
        SettlingOf(was, conns, h, w, true, rest);
        QuerierDone(was, conns, h, w, true, rest, c);
        FewerLive(AllLive(conns), AllLive(was));
        RestIs(was, conns, inflight, h, w, true, rest, x);
        if Live(conns, x) {
          WaiterSettled(was, conns, inflight, h, w, true, rest, x,
                        conns[x].(state := Outcome(w, x, true), asking := false));
          Resolved(x, w);
          rest := rest - {x};
        }
      }
      assert waiters[|waiters|..] == [];
      assert rest == {};
    }

    /** `dnsGiveUp`: an address from an earlier answer is used once more. */
    method GiveUp(c: nat, w: World)
      requires Valid() && Registered(c)
      modifies this
      ensures Valid() && inflight == old(inflight) - {old(conns)[c].host}
      ensures SettledHost(old(conns), conns, old(conns)[c].host, w, w.stale)
      decreases |AllLive(conns)|, 2
    {
      if w.stale { Resolved(c, w); } else { Fail(c, w); }
    }

    /** `dnsAttempt`: the first server that can be asked, or none. */
    method Attempt(c: nat, w: World)
      requires Valid() && Registered(c)
      modifies this
      ensures Valid()
      ensures if CanSend(w, old(conns)[c].server) then
                && inflight == old(inflight) && conns.Keys == old(conns).Keys && c in conns
                && conns == old(conns)[c := old(conns)[c].(server := conns[c].server, aaaa := conns[c].aaaa)]
                && FirstSending(w, old(conns)[c].server, conns[c].server)
                && conns[c].aaaa == (old(conns)[c].aaaa && conns[c].server == old(conns)[c].server)
              else
                && inflight == old(inflight) - {old(conns)[c].host}
                && SettledHost(old(conns), conns, old(conns)[c].host, w, w.stale)
      decreases |AllLive(conns)|, 3
    {
      hide Inv, Settling;
      ghost var was := conns;
      while conns[c].server < servers
        invariant Valid() && inflight == old(inflight) && c in conns
        invariant conns == was[c := was[c].(server := conns[c].server, aaaa := conns[c].aaaa)]
        invariant was[c].server <= conns[c].server && conns[c].aaaa == (was[c].aaaa && conns[c].server == was[c].server)
        invariant forall s :: was[c].server <= s < conns[c].server ==> !w.sends(s)
        decreases servers - conns[c].server
      {
        if w.sends(conns[c].server) { return; }
        Asked(conns, inflight, c, conns[c].server + 1, false);
        conns := conns[c := conns[c].(server := conns[c].server + 1, aaaa := false)];
      }
      SameHosts(was, conns, c);
      ghost var mid := conns;
      IsLive(mid, inflight, mid[c].host);
      GiveUp(c, w);
      SettledFrom(was, mid, conns, was[c].host, w, w.stale, c);
    }

    /** `dnsAbandon` of a connection that has just closed: the first of its list
        that still resolves asks on, with the rest of the list. */
    method Abandon(c: nat, w: World, ghost was: Conn)
      requires c in conns && conns[c] == was.(state := Closed) && was.state == Resolving
      requires Registered(c) ==> Inv(conns[c := was], inflight, {})
      modifies this
      ensures !old(Registered(c)) ==> inflight == old(inflight) && conns == old(conns)
      ensures old(Registered(c)) ==> Valid() && HandedOn(old(conns), old(inflight), c, w)
      decreases |AllLive(conns)|, 5
    {
      hide Inv, AllLive, Of, Settling, Loop.CanSend, Loop.FirstSending;
      ghost var before := conns;
      if Registered(c) { QuerierLeft(before, inflight, c, was); }
      var waiters := Detach(c);
      for i := 0 to |waiters|
        invariant forall k :: 0 <= k < i ==> !Live(conns, waiters[k])
      {
        if Live(conns, waiters[i]) {
          FirstLiveIs(before, conns, waiters, i);
          SameLive(before, conns);
          Promote(c, i, waiters, w, before);
          return;
        }
      }
      if old(Registered(c)) {
        NobodyLeft(before, conns[c].host, waiters);
        NoFirst(before, waiters);
      }
    }

    /** The one at `i` of the list a closed querier had asks on. */
    method Promote(c: nat, i: nat, waiters: seq<nat>, w: World, ghost before: map<nat, Conn>)
      requires c in before && before[c].state == Closed && waiters == before[c].waiters && WaitersOf(before, c, waiters)
      requires conns == before[c := before[c].(waiters := [])] && before[c].host !in inflight
      requires Inv(conns, inflight, Of(before, before[c].host))
      requires forall y :: y in Of(before, before[c].host) ==> y in waiters
      requires i < |waiters| && Live(before, waiters[i]) && forall k :: 0 <= k < i ==> !Live(before, waiters[k])
      modifies this
      ensures Valid()
      ensures var h, x := before[c].host, waiters[i];
              if CanSend(w, before[c].server) then
                && inflight == old(inflight)[h := x] && x in conns
                && conns == old(conns)[x := before[x].(server := conns[x].server, aaaa := conns[x].aaaa,
                                                       waiters := waiters[i + 1..])]
                && FirstSending(w, before[c].server, conns[x].server)
                && conns[x].aaaa == (before[c].aaaa && conns[x].server == before[c].server)
              else inflight == old(inflight) && SettledHost(old(conns), conns, h, w, w.stale)
      decreases |AllLive(conns)|, 4
    {
      hide Inv, AllLive, Of, Settling, Loop.CanSend, Loop.FirstSending;
      var h, x := conns[c].host, waiters[i];
      var now := conns[x].(server := conns[c].server, aaaa := conns[c].aaaa, waiters := waiters[i + 1..]);
      ListGoesOn(before, inflight, c, i, now);
      conns := conns[x := now];
      inflight := inflight[h := x];
      SameLive(old(conns), conns);
      ghost var mid := conns;
      Attempt(x, w);
      if !CanSend(w, before[c].server) {
        SettledFrom(old(conns), mid, conns, h, w, w.stale, x);
        assert old(inflight)[h := x] - {h} == old(inflight);
      }
    }

    /** What becomes of the host of a querier that closed: the first of its list that
        still resolves asks on with the rest of the list, or, if no server can be
        asked, the host is settled. No other connection changes. */
    ghost predicate HandedOn(was: map<nat, Conn>, before: map<Host, nat>, c: nat, w: World)
      requires c in was
      reads this
    {
      var h, ws := was[c].host, was[c].waiters;
      var left := was[c := was[c].(waiters := [])];
      var i := FirstLive(was, ws);
      if i < 0 then inflight == before - {h} && conns == left
      else if CanSend(w, was[c].server) then
        && inflight == before[h := ws[i]] && ws[i] in conns
        && conns == left[ws[i] := was[ws[i]].(server := conns[ws[i]].server, aaaa := conns[ws[i]].aaaa,
                                              waiters := ws[i + 1..])]
        && FirstSending(w, was[c].server, conns[ws[i]].server)
        && conns[ws[i]].aaaa == (was[c].aaaa && conns[ws[i]].server == was[c].server)
      else inflight == before - {h} && SettledHost(left, conns, h, w, w.stale)
    }

    /** `s` is the first server from `from` on that can be asked. */
    predicate FirstSending(w: World, from: nat, s: nat) {
      from <= s < servers && w.sends(s) && forall k :: from <= k < s ==> !w.sends(k)
    }

    /** `closeConn`, as far as names go. */
    method Close(c: nat, w: World)
      requires c in conns && (Registered(c) ==> Valid())
      requires conns[c].asking ==> conns[c].state != Connecting
      modifies this
      ensures !old(Registered(c)) ==>
                inflight == old(inflight) && conns == old(conns)[c := old(conns)[c].(state := Closed)]
      ensures old(Registered(c)) ==>
                Valid() && HandedOn(old(conns)[c := old(conns)[c].(state := Closed)], old(inflight), c, w)
      decreases |AllLive(conns)|, 0
    {
      hide Inv, AllLive, Of;
      ghost var was := conns;
      if Registered(c) { IsLive(conns, inflight, conns[c].host); }
      if conns[c].state == Closed {
        assert conns == conns[c := conns[c].(state := Closed)];
        return;
      }
      conns := conns[c := conns[c].(state := Closed)];
      if conns[c].asking {
        OneLess(was, c);
        assert conns[c := was[c]] == was;
        Abandon(c, w, was[c]);
      }
    }

    // ----- Events

    /** A connection has begun: with what the cache says, on the list of whoever
        asks for its host, or asking itself. */
    ghost predicate Began(was: map<nat, Conn>, before: map<Host, nat>, c: nat, h: Host, lookup: Lookup, w: World)
      reads this
    {
      if !lookup.Missing? then
        inflight == before && conns == was[c := Conn(Outcome(w, c, lookup.Cached?), h, false, 0, false, [])]
      else if h in before then
        && inflight == before && before[h] in was
        && var q := before[h]; conns == was[c := Asking(h)][q := was[q].(waiters := was[q].waiters + [c])]
      else if CanSend(w, 0) then
        && inflight == before[h := c] && c in conns && FirstSending(w, 0, conns[c].server)
        && conns == was[c := Asking(h).(server := conns[c].server)]
      else inflight == before && SettledHost(was[c := Asking(h)], conns, h, w, w.stale)
    }

    /** A querier that got no answer asks for the other kind of address, or the next
        server; if no server is left, its host is settled. */
    ghost predicate AskedOn(was: map<nat, Conn>, before: map<Host, nat>, c: nat, noAddress: bool, w: World)
      requires c in was
      reads this
    {
      var again := noAddress && !was[c].aaaa;
      var from := if again then was[c].server else was[c].server + 1;
      if CanSend(w, from) then
        && inflight == before && c in conns && FirstSending(w, from, conns[c].server)
        && conns[c].aaaa == (again && conns[c].server == from)
        && conns == was[c := was[c].(server := conns[c].server, aaaa := conns[c].aaaa)]
      else inflight == before - {was[c].host} && SettledHost(was, conns, was[c].host, w, w.stale)
    }

    /** What an event does. */
    ghost predicate Did(e: Event, was: map<nat, Conn>, before: map<Host, nat>)
      reads this
    {
      var asks := e.c in was && was[e.c].host in before && before[was[e.c].host] == e.c;
      match e
      case Started(c, h, lookup, w) =>
        if c in was then conns == was && inflight == before else Began(was, before, c, h, lookup, w)
      case Answered(c, w) =>
        if asks then inflight == before - {was[c].host} && SettledHost(was, conns, was[c].host, w, true)
        else conns == was && inflight == before
      case NoAnswer(c, noAddress, w) =>
        if asks then AskedOn(was, before, c, noAddress, w) else conns == was && inflight == before
      case Expired(c, w) =>
        if c !in was then conns == was && inflight == before
        else if asks then HandedOn(was[c := was[c].(state := Closed)], before, c, w)
        else inflight == before && conns == was[c := was[c].(state := Closed)]
    }

    /** `newConn` and `startResolve`, for a connection not seen before. */
    method StartResolve(c: nat, h: Host, lookup: Lookup, w: World)
      requires Valid() && c !in conns
      modifies this
      ensures Valid()
      ensures Began(old(conns), old(inflight), c, h, lookup, w)
    {
      hide Inv, Of, AllLive;
      match lookup {
        case Refuted => AddDone(c, Conn(Outcome(w, c, false), h, false, 0, false, []));
        case Cached => AddDone(c, Conn(Outcome(w, c, true), h, false, 0, false, []));
        case Missing =>
          if h in inflight {
            JoinedWaiter(conns, inflight, c, h);
            var q := inflight[h];
            conns := conns[c := Asking(h)][q := conns[q].(waiters := conns[q].waiters + [c])];
          } else {
            JoinedQuerier(conns, inflight, c, h);
            conns := conns[c := Asking(h)];
            inflight := inflight[h := c];
            Attempt(c, w);
            assert old(inflight)[h := c] - {h} == old(inflight);
          }
      }
    }

    method AddDone(c: nat, x: Conn)
      requires Valid() && c !in conns && x.state != Resolving && !x.asking && x.waiters == []
      modifies this`conns
      ensures Valid() && conns == old(conns)[c := x]
    {
      conns := conns[c := x];
    }

    /** `dnsNext`: the other kind of address, then the next server. */
    method Next(c: nat, noAddress: bool, w: World)
      requires Valid() && Registered(c)
      modifies this
      ensures Valid()
      ensures AskedOn(old(conns), old(inflight), c, noAddress, w)
    {
      hide Inv, Of, AllLive;
      ghost var was := conns;
      IsLive(conns, inflight, conns[c].host);
      if noAddress && !conns[c].aaaa {
        Asked(conns, inflight, c, conns[c].server, true);
        conns := conns[c := conns[c].(aaaa := true)];
      } else {
        Asked(conns, inflight, c, conns[c].server + 1, false);
        conns := conns[c := conns[c].(server := conns[c].server + 1, aaaa := false)];
      }
      ghost var mid := conns;
      SameHosts(was, mid, c);
      InOf(conns, c);
      Attempt(c, w);
      if !CanSend(w, mid[c].server) { SettledFrom(was, mid, conns, was[c].host, w, w.stale, c); }
    }

    /** One event. Only the querier of a host has a socket that can become readable
        or a deadline of its own. */
    method Step(e: Event)
      requires Valid()
      modifies this
      ensures Valid() && Did(e, old(conns), old(inflight))
    {
      hide Inv, Of, AllLive, Settling, SettledHost, HandedOn, Began, AskedOn;
      match e {
        case Started(c, h, lookup, w) => if c !in conns { StartResolve(c, h, lookup, w); }
        case Answered(c, w) => if Registered(c) { Resolved(c, w); }
        case NoAnswer(c, noAddress, w) => if Registered(c) { Next(c, noAddress, w); }
        case Expired(c, w) =>
          if c in conns {
            Unlisted(conns, inflight, c);
            if !Registered(c) { Stopped(conns, inflight, {}, c, conns[c].(state := Closed)); }
            Close(c, w);
          }
      }
    }

    /** At every event boundary of every run. */
    method Run(events: seq<Event>)
      requires Valid()
      modifies this
      ensures Valid()
    {
      hide Inv;
      for i := 0 to |events|
        invariant Valid()
      {
        Step(events[i]);
      }
    }
  }

  /** What the cache says about a host: nothing, an address, or that it has none. */
  datatype Lookup = Missing | Cached | Refuted

  datatype Event =
    | Started(c: nat, h: Host, lookup: Lookup, w: World)
    | Answered(c: nat, w: World)
    | NoAnswer(c: nat, noAddress: bool, w: World)
    | Expired(c: nat, w: World)

  lemma Unlisted(conns: map<nat, Conn>, inflight: map<Host, nat>, c: nat)
    requires Inv(conns, inflight, {}) && c in conns
    ensures conns[c].asking ==> conns[c].state != Connecting
    ensures !(conns[c].host in inflight && inflight[conns[c].host] == c) ==> conns[c].waiters == []
  {
  }

  lemma QuerierDone(was: map<nat, Conn>, now: map<nat, Conn>, h: Host, w: World, resolved: bool, rest: set<nat>, c: nat)
    requires Settling(was, now, h, w, resolved, rest) && c in Of(was, h) && c !in rest
    ensures AllLive(now) != AllLive(was)
  {
    assert c in AllLive(was) && c !in AllLive(now);
  }

  lemma SameHosts(a: map<nat, Conn>, b: map<nat, Conn>, c: nat)
    requires c in a && c in b && b == a[c := b[c]] && b[c].state == a[c].state && b[c].host == a[c].host
    ensures AllLive(a) == AllLive(b) && Of(a, a[c].host) == Of(b, a[c].host)
  {
  }

  /** The querier's own progress does not matter to how its host is settled. */
  lemma SettledFrom(was: map<nat, Conn>, mid: map<nat, Conn>, now: map<nat, Conn>, h: Host, w: World, resolved: bool,
                    c: nat)
    requires SettledHost(mid, now, h, w, resolved) && c in was && c in mid && Live(mid, c) && mid[c].host == h
    requires mid == was[c := mid[c]] && mid[c].state == was[c].state && mid[c].host == was[c].host
    ensures SettledHost(was, now, h, w, resolved)
  {
    SameHosts(was, mid, c);
  }

  // ----- A querier closes

  lemma QuerierLeft(before: map<nat, Conn>, inflight: map<Host, nat>, c: nat, was: Conn)
    requires c in before && before[c] == was.(state := Closed) && was.state == Resolving
    requires Inv(before[c := was], inflight, {}) && was.host in inflight && inflight[was.host] == c
    ensures Inv(before[c := before[c].(waiters := [])], inflight - {was.host}, Of(before, was.host))
    ensures WaitersOf(before, c, was.waiters)
    ensures forall x :: x in Of(before, was.host) ==> x in was.waiters
  {
    var open := before[c := was];
    Detached(open, inflight, c);
    var mid := open[c := was.(waiters := [])];
    Settled(mid, inflight - {was.host}, Of(open, was.host), c, before[c].(waiters := []));
    assert mid[c := before[c].(waiters := [])] == before[c := before[c].(waiters := [])];
    assert Of(before, was.host) == Of(open, was.host) - {c};
  }

  lemma ListGoesOn(before: map<nat, Conn>, inflight: map<Host, nat>, c: nat, i: nat, now: Conn)
    requires c in before && before[c].state == Closed && WaitersOf(before, c, before[c].waiters)
    requires var h, ws := before[c].host, before[c].waiters;
             && h !in inflight && Inv(before[c := before[c].(waiters := [])], inflight, Of(before, h))
             && (forall x :: x in Of(before, h) ==> x in ws)
             && i < |ws| && Live(before, ws[i]) && (forall k :: 0 <= k < i ==> !Live(before, ws[k]))
             && now == before[ws[i]].(server := now.server, aaaa := now.aaaa, waiters := ws[i + 1..])
    ensures var h, ws := before[c].host, before[c].waiters;
            Inv(before[c := before[c].(waiters := [])][ws[i] := now], inflight[h := ws[i]], {})
  {
    hide Inv;
    var h, ws := before[c].host, before[c].waiters;
    var mid := before[c := before[c].(waiters := [])];
    var x := ws[i];
    SuffixRepeats(ws, i);
    assert forall y :: y in ws[i + 1..] ==> y in ws;
    forall y | y in Of(before, h)
      ensures y == x || y in ws[i + 1..]
    {
      var k :| 0 <= k < |ws| && ws[k] == y;
      assert Live(before, ws[k]);
      if k > i { assert ws[i + 1..][k - i - 1] == y; }
    }
    assert x in Of(before, h);
    Promoted(mid, inflight, Of(before, h), x, ws[i + 1..], now);
  }

  /** The querier of a host resolves it, and asks. */
  lemma IsLive(conns: map<nat, Conn>, inflight: map<Host, nat>, h: Host)
    requires Inv(conns, inflight, {}) && h in inflight
    ensures Live(conns, inflight[h]) && conns[inflight[h]].asking && conns[inflight[h]].host == h
  {
  }

  lemma SameLive(a: map<nat, Conn>, b: map<nat, Conn>)
    requires a.Keys == b.Keys && forall x :: x in a ==> a[x].state == b[x].state
    ensures AllLive(a) == AllLive(b)
  {
  }

  lemma OneLess(conns: map<nat, Conn>, c: nat)
    requires Live(conns, c)
    ensures |AllLive(conns[c := conns[c].(state := Closed)])| < |AllLive(conns)|
  {
    var now := conns[c := conns[c].(state := Closed)];
    assert c in AllLive(conns) && c !in AllLive(now);
    FewerLive(AllLive(now), AllLive(conns));
  }

  lemma InOf(conns: map<nat, Conn>, c: nat)
    requires Live(conns, c)
    ensures c in Of(conns, conns[c].host)
  {
  }

  lemma NobodyLeft(conns: map<nat, Conn>, h: Host, ws: seq<nat>)
    requires forall x :: x in Of(conns, h) ==> x in ws
    requires forall k :: 0 <= k < |ws| ==> !Live(conns, ws[k])
    ensures Of(conns, h) == {}
  {
  }

  lemma NoFirst(conns: map<nat, Conn>, ws: seq<nat>)
    requires forall k :: 0 <= k < |ws| ==> !Live(conns, ws[k])
    ensures FirstLive(conns, ws) == -1
  {
  }

  lemma {:induction false} FirstLiveIs(conns: map<nat, Conn>, same: map<nat, Conn>, ws: seq<nat>, i: nat)
    requires i < |ws| && Live(same, ws[i]) && forall k :: 0 <= k < i ==> !Live(same, ws[k])
    requires forall x :: Live(conns, x) <==> Live(same, x)
    ensures FirstLive(conns, ws) == i
  {
    var k := FirstLive(conns, ws);
    assert Live(conns, ws[i]);
    assert k >= 0;
    assert !(k < i);
    assert !(i < k);
  }
}
