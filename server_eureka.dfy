/** The server's `EurekaEventHandler`: it keeps a fixed set of service
    instances alive. On a replicated "renewed" heartbeat the instance with the
    smallest port launches every configured target, registered or not, whose
    port is free locally and not already restarting; the ports it launched
    stay in `portsInRestart` until their "registered" event arrives. The
    registry snapshot is a sequence of ports, the port-free probe is an
    oracle, and a process launch is a recorded output. */
module CloudServerEureka {
  import opened Wrappers
  import opened Text

  /** A process started for a configured target: its port and its profile. */
  datatype Launch = Launch(port: int, profile: string)

  /** How the renewed handler ended: normally, with `first()` of an empty
      instance list throwing, or with a target key that is not a number. */
  datatype Outcome = Completed | NoSuchElement | NumberFormat(key: string)

  /** The state after a renewed event: `portsInRestart`, the processes
      launched during the event (in order), and how the handler ended. */
  datatype Renewal = Renewal(restart: seq<int>, launches: seq<Launch>, outcome: Outcome)

  /** The highest TCP port; `ServerSocket` refuses anything outside 0..65535. */
  const MaxPort: int := 65535

  predicate NoDup(s: seq<int>) {
    forall i, j :: 0 <= i < j < |s| ==> s[i] != s[j]
  }

  predicate DistinctKeys(targets: seq<(string, string)>) {
    forall i, j :: 0 <= i < j < |targets| ==> targets[i].0 != targets[j].0
  }

  /** The ports of a sequence of launches, in order. */
  function PortsOf(launches: seq<Launch>): (ports: seq<int>)
    ensures |ports| == |launches|
    decreases |launches|
  {
    if launches == [] then [] else [launches[0].port] + PortsOf(launches[1..])
  }

  lemma {:induction false} PortsOfAt(launches: seq<Launch>, k: nat)
    requires k < |launches|
    ensures PortsOf(launches)[k] == launches[k].port
    decreases |launches|
  {
    if k > 0 {
      PortsOfAt(launches[1..], k - 1);
    }
  }

  /** `targetPortStr.replace('/', ' ').trim().toInt()`; `None` is the
      `NumberFormatException`. */
  function KeyToPort(key: string): Option<Int32> {
    ParseInt(Trim(Replace(key, '/', ' ')))
  }

  /** A key made of a port number surrounded by any slashes and whitespace
      denotes that port. */
  lemma KeyToPortPadded(pre: string, port: Int32, post: string)
    requires forall k :: 0 <= k < |pre| ==> pre[k] == '/' || IsWhitespace(pre[k])
    requires forall k :: 0 <= k < |post| ==> post[k] == '/' || IsWhitespace(post[k])
    ensures KeyToPort(pre + IntToString(port) + post) == Some(port)
  {
    IntToStringChars(port);
    ParseIntToString(port);
    KeyToPortPaddedNumeral(pre, IntToString(port), post);
  }

  /** The same for any numeral `d` made of `-`, `+` and digits. */
  lemma KeyToPortPaddedNumeral(pre: string, d: string, post: string)
    requires forall k :: 0 <= k < |pre| ==> pre[k] == '/' || IsWhitespace(pre[k])
    requires forall k :: 0 <= k < |post| ==> post[k] == '/' || IsWhitespace(post[k])
    requires |d| > 0 && IsDigit(d[|d| - 1])
    requires forall k :: 0 <= k < |d| ==> d[k] == '-' || d[k] == '+' || IsDigit(d[k])
    ensures KeyToPort(pre + d + post) == ParseInt(d)
  {
    ReplaceConcat(pre + d, post, '/', ' ');
    ReplaceConcat(pre, d, '/', ' ');
    assert Replace(d, '/', ' ') == d;
    TrimPadded(Replace(pre, '/', ' '), d, Replace(post, '/', ' '));
  }

  /** `checkPortCanUse`: `ServerSocket(port)` throws for a port outside
      0..65535, otherwise the oracle `free` says whether it could bind. */
  predicate CheckPortCanUse(p: int, free: int -> bool) {
    0 <= p <= MaxPort && free(p)
  }

  /** `any { it.port != targetPort }`: SOME instance has a different port. */
  predicate AnyOtherPort(instances: seq<int>, p: int) {
    exists i :: 0 <= i < |instances| && instances[i] != p
  }

  /** What the renewed handler consults during one event: how a target key
      is parsed, its own port, the registered instance ports, and the
      port-free oracle. */
  datatype Context = Context(parse: string -> Option<Int32>, own: int, instances: seq<int>, free: int -> bool)

  /** The four-part guard of the launch loop, in the source's order. */
  predicate ShouldLaunch(ctx: Context, p: int, restart: seq<int>) {
    p != ctx.own && AnyOtherPort(ctx.instances, p) && p !in restart && CheckPortCanUse(p, ctx.free)
  }

  /** The launch loop over the targets from `targets[0]` on, given the
      restart list and the launches so far. */
  function Scan(ctx: Context, targets: seq<(string, string)>, restart: seq<int>, launches: seq<Launch>): Renewal
    decreases |targets|
  {
    if targets == [] then Renewal(restart, launches, Completed)
    else
      match ctx.parse(targets[0].0)
      case None => Renewal(restart, launches, NumberFormat(targets[0].0))
      case Some(p) =>
        if ShouldLaunch(ctx, p, restart)
        then Scan(ctx, targets[1..], restart + [p], launches + [Launch(p, targets[0].1)])
        else Scan(ctx, targets[1..], restart, launches)
  }

  /** The smallest element, which is what `first()` yields after `sortBy`. */
  function Min(s: seq<int>): (m: int)
    requires |s| > 0
    ensures m in s
    ensures forall k :: 0 <= k < |s| ==> m <= s[k]
  {
    if |s| == 1 then s[0]
    else
      var rest := Min(s[1..]);
      assert forall k :: 1 <= k < |s| ==> s[k] == s[1..][k - 1];
      if s[0] <= rest then s[0] else rest
  }

  /** The renewed handler as a function of what it observes: only a
      replicated event, a count different from the number of targets and
      the own port being the smallest registered one lead into the loop. */
  function Renewed(isReplication: bool, instances: seq<int>, targets: seq<(string, string)>,
                   own: int, free: int -> bool, restart: seq<int>): Renewal
  {
    if !isReplication || |instances| == |targets| then Renewal(restart, [], Completed)
    else if |instances| == 0 then Renewal(restart, [], NoSuchElement)
    else if Min(instances) != own then Renewal(restart, [], Completed)
    else Scan(Context(KeyToPort, own, instances, free), targets, restart, [])
  }

  /** The first position of `x` in `s`. */
  function IndexOf(s: seq<int>, x: int): (i: nat)
    requires x in s
    ensures i < |s| && s[i] == x && x !in s[..i]
  {
    if s[0] == x then 0
    else
      var i := IndexOf(s[1..], x) + 1;
      assert s[..i] == [s[0]] + s[1..][..i - 1];
      i
  }

  /** `r` is `restart` without position `k`, the first position holding `port`. */
  predicate CutAtFirst(restart: seq<int>, port: int, k: int, r: seq<int>) {
    0 <= k < |restart| && restart[k] == port && port !in restart[..k] && r == restart[..k] + restart[k + 1..]
  }

  /** The registered handler: `portsInRestart.remove(port)` (the first
      occurrence) when the list contains the port, otherwise nothing. One
      copy of the port is gone and nothing else; what is cut out is the
      port's first position. */
  function Registered(restart: seq<int>, port: int): (r: seq<int>)
    ensures port !in restart ==> r == restart
    ensures multiset(r) == multiset(restart) - multiset{port}
    ensures port in restart ==> exists k :: CutAtFirst(restart, port, k, r)
  {
    if port in restart then
      var i := IndexOf(restart, port);
      assert restart == restart[..i] + [port] + restart[i + 1..];
      assert CutAtFirst(restart, port, i, restart[..i] + restart[i + 1..]);
      restart[..i] + restart[i + 1..]
    else restart
  }

  // ---------------------------------------------------------------- properties of the loop

  lemma PortsOfCons(l: Launch, rest: seq<Launch>)
    ensures PortsOf([l] + rest) == [l.port] + PortsOf(rest)
  {
    assert ([l] + rest)[1..] == rest;
  }

  /** Splitting a sequence that starts with `launches + [l]`. */
  lemma SplitAfter(all: seq<Launch>, launches: seq<Launch>, l: Launch)
    requires |launches| + 1 <= |all| && all[..|launches| + 1] == launches + [l]
    ensures all[..|launches|] == launches
    ensures all[|launches|..] == [l] + all[|launches| + 1..]
  {
    var n := |launches|;
    assert all[..n] == all[..n + 1][..n];
    assert all[n..] == [all[n]] + all[n + 1..];
    assert all[n] == all[..n + 1][n];
  }

  /** One launch followed by the rest of the loop still appends. */
  lemma AppendsStep(restart: seq<int>, launches: seq<Launch>, p: int, l: Launch, all: seq<Launch>, restartAfter: seq<int>)
    requires l.port == p
    requires |launches| + 1 <= |all|
    requires all[..|launches| + 1] == launches + [l]
    requires restartAfter == restart + [p] + PortsOf(all[|launches| + 1..])
    ensures all[..|launches|] == launches
    ensures restartAfter == restart + PortsOf(all[|launches|..])
  {
    var later := all[|launches| + 1..];
    SplitAfter(all, launches, l);
    PortsOfCons(l, later);
    assert restart + [p] + PortsOf(later) == restart + ([p] + PortsOf(later));
  }

  /** The loop only appends: the launches so far stay, and the restart list
      grows by exactly the ports launched, in order. */
  lemma {:induction false} ScanAppends(ctx: Context, targets: seq<(string, string)>, restart: seq<int>, launches: seq<Launch>)
    ensures var r := Scan(ctx, targets, restart, launches);
      && |launches| <= |r.launches|
      && r.launches[..|launches|] == launches
      && r.restart == restart + PortsOf(r.launches[|launches|..])
    decreases |targets|
  {
    if targets == [] || ctx.parse(targets[0].0).None? {
      assert restart + PortsOf([]) == restart;
    } else {
      var p := ctx.parse(targets[0].0).value;
      if ShouldLaunch(ctx, p, restart) {
        var l := Launch(p, targets[0].1);
        ScanAppends(ctx, targets[1..], restart + [p], launches + [l]);
        var r := Scan(ctx, targets[1..], restart + [p], launches + [l]);
        AppendsStep(restart, launches, p, l, r.launches, r.restart);
      } else {
        ScanAppends(ctx, targets[1..], restart, launches);
      }
    }
  }

  /** A target with that port and profile. */
  predicate FromTarget(ctx: Context, targets: seq<(string, string)>, launch: Launch) {
    exists j :: 0 <= j < |targets| && ctx.parse(targets[j].0) == Some(launch.port) && targets[j].1 == launch.profile
  }

  /** Every process the loop launches passes the guard against the restart
      list it started from, and comes from a target with that port and
      profile. */
  lemma {:induction false} ScanSound(ctx: Context, targets: seq<(string, string)>, restart: seq<int>, launches: seq<Launch>)
    ensures var r := Scan(ctx, targets, restart, launches);
      forall k :: |launches| <= k < |r.launches| ==>
        ShouldLaunch(ctx, r.launches[k].port, restart) && FromTarget(ctx, targets, r.launches[k])
    decreases |targets|
  {
    if targets != [] && ctx.parse(targets[0].0).Some? {
      var p := ctx.parse(targets[0].0).value;
      var tail := targets[1..];
      var launch := ShouldLaunch(ctx, p, restart);
      var restart' := if launch then restart + [p] else restart;
      var launches' := if launch then launches + [Launch(p, targets[0].1)] else launches;
      ScanSound(ctx, tail, restart', launches');
      ScanAppends(ctx, tail, restart', launches');
      var r := Scan(ctx, tail, restart', launches');
      forall k | |launches| <= k < |r.launches|
        ensures ShouldLaunch(ctx, r.launches[k].port, restart) && FromTarget(ctx, targets, r.launches[k])
      {
        if launch && k == |launches| {
          assert r.launches[k] == launches'[k] == Launch(p, targets[0].1);
          assert ctx.parse(targets[0].0) == Some(p);
        } else {
          var j :| 0 <= j < |tail| && ctx.parse(tail[j].0) == Some(r.launches[k].port) && tail[j].1 == r.launches[k].profile;
          assert targets[j + 1] == tail[j];
        }
      }
    }
  }

  /** The loop keeps the restart list free of duplicates. */
  lemma {:induction false} ScanNoDup(ctx: Context, targets: seq<(string, string)>, restart: seq<int>, launches: seq<Launch>)
    requires NoDup(restart)
    ensures NoDup(Scan(ctx, targets, restart, launches).restart)
    decreases |targets|
  {
    if targets != [] && ctx.parse(targets[0].0).Some? {
      var p := ctx.parse(targets[0].0).value;
      if ShouldLaunch(ctx, p, restart) {
        ScanNoDup(ctx, targets[1..], restart + [p], launches + [Launch(p, targets[0].1)]);
      } else {
        ScanNoDup(ctx, targets[1..], restart, launches);
      }
    }
  }

  /** A loop that ran to the end has every target that passes the
      port-based parts of the guard in the restart list: launched now, or
      already restarting before. */
  lemma {:induction false} ScanComplete(ctx: Context, targets: seq<(string, string)>, restart: seq<int>, launches: seq<Launch>, j: nat)
    requires j < |targets|
    requires Scan(ctx, targets, restart, launches).outcome == Completed
    requires ctx.parse(targets[j].0).Some?
    requires var p := ctx.parse(targets[j].0).value;
      p != ctx.own && AnyOtherPort(ctx.instances, p) && CheckPortCanUse(p, ctx.free)
    ensures ctx.parse(targets[j].0).value in Scan(ctx, targets, restart, launches).restart
    decreases |targets|
  {
    var p := ctx.parse(targets[0].0).value;
    var tail := targets[1..];
    var launch := ShouldLaunch(ctx, p, restart);
    var restart' := if launch then restart + [p] else restart;
    var launches' := if launch then launches + [Launch(p, targets[0].1)] else launches;
    ScanAppends(ctx, tail, restart', launches');
    if j == 0 {
      assert p in restart';
    } else {
      assert tail[j - 1] == targets[j];
      ScanComplete(ctx, tail, restart', launches', j - 1);
    }
  }

  /** The loop runs to the end iff every key parsed; otherwise it stops at
      a key that did not. */
  lemma {:induction false} ScanOutcome(ctx: Context, targets: seq<(string, string)>, restart: seq<int>, launches: seq<Launch>)
    ensures var r := Scan(ctx, targets, restart, launches);
      && (r.outcome == Completed <==> forall j :: 0 <= j < |targets| ==> ctx.parse(targets[j].0).Some?)
      && !r.outcome.NoSuchElement?
      && (r.outcome.NumberFormat? ==>
            exists j :: 0 <= j < |targets| && targets[j].0 == r.outcome.key && ctx.parse(targets[j].0).None?)
    decreases |targets|
  {
    if targets != [] && ctx.parse(targets[0].0).Some? {
      var p := ctx.parse(targets[0].0).value;
      var tail := targets[1..];
      if ShouldLaunch(ctx, p, restart) {
        ScanOutcome(ctx, tail, restart + [p], launches + [Launch(p, targets[0].1)]);
      } else {
        ScanOutcome(ctx, tail, restart, launches);
      }
      assert forall j :: 0 <= j < |tail| ==> tail[j] == targets[j + 1];
      assert forall j :: 0 < j < |targets| ==> targets[j] == tail[j - 1];
    }
  }

  // ---------------------------------------------------------------- properties of the handlers

  /** The renewed handler does nothing unless the event is a replication,
      the instance count differs from the number of targets, and the own
      port is the smallest registered port; it throws `NoSuchElementException`
      exactly when the counts differ and no instance is registered. */
  lemma RenewedGate(isReplication: bool, instances: seq<int>, targets: seq<(string, string)>,
                    own: int, free: int -> bool, restart: seq<int>)
    ensures var r := Renewed(isReplication, instances, targets, own, free, restart);
      && (r.launches != [] || r.restart != restart ==>
            isReplication && |instances| != |targets| && |instances| > 0 && Min(instances) == own)
      && (r.outcome == NoSuchElement <==> isReplication && |instances| != |targets| && |instances| == 0)
  {
    if isReplication && |instances| != |targets| && |instances| > 0 && Min(instances) == own {
      ScanOutcome(Context(KeyToPort, own, instances, free), targets, restart, []);
    }
  }

  /** Inside the loop, the handler stops with `NumberFormatException` iff
      some target key is not a number, and then at such a key; when it runs
      to the end, every target port that is not the own port and can be
      bound is restarting afterwards. */
  lemma RenewedLoop(instances: seq<int>, targets: seq<(string, string)>,
                    own: int, free: int -> bool, restart: seq<int>)
    requires |instances| != |targets| && |instances| > 0 && Min(instances) == own
    ensures var r := Renewed(true, instances, targets, own, free, restart);
      && (r.outcome == Completed <==> forall j :: 0 <= j < |targets| ==> KeyToPort(targets[j].0).Some?)
      && (r.outcome.NumberFormat? ==>
            exists j :: 0 <= j < |targets| && targets[j].0 == r.outcome.key && KeyToPort(targets[j].0).None?)
      && (r.outcome == Completed ==>
            forall j :: 0 <= j < |targets| && KeyToPort(targets[j].0).Some? && KeyToPort(targets[j].0).value != own
                        && CheckPortCanUse(KeyToPort(targets[j].0).value, free)
                        ==> KeyToPort(targets[j].0).value in r.restart)
  {
    var ctx := Context(KeyToPort, own, instances, free);
    ScanOutcome(ctx, targets, restart, []);
    var r := Scan(ctx, targets, restart, []);
    if r.outcome == Completed {
      forall j | 0 <= j < |targets| && ctx.parse(targets[j].0).Some? && ctx.parse(targets[j].0).value != own
                 && CheckPortCanUse(ctx.parse(targets[j].0).value, free)
        ensures ctx.parse(targets[j].0).value in r.restart
      {
        AnyOtherPortHoldsForLeader(instances, own, ctx.parse(targets[j].0).value);
        ScanComplete(ctx, targets, restart, [], j);
      }
    }
  }

  /** What one renewed event does to the restart list: it appends exactly
      the launched ports, each of which passed the guard (so none was
      already restarting), and no two of which are equal. */
  lemma RenewedLaunches(isReplication: bool, instances: seq<int>, targets: seq<(string, string)>,
                        own: int, free: int -> bool, restart: seq<int>)
    requires NoDup(restart)
    ensures var r := Renewed(isReplication, instances, targets, own, free, restart);
      && r.restart == restart + PortsOf(r.launches)
      && NoDup(r.restart)
      && forall k :: 0 <= k < |r.launches| ==>
           ShouldLaunch(Context(KeyToPort, own, instances, free), r.launches[k].port, restart)
  {
    if isReplication && |instances| != |targets| && |instances| > 0 && Min(instances) == own {
      var ctx := Context(KeyToPort, own, instances, free);
      ScanAppends(ctx, targets, restart, []);
      ScanSound(ctx, targets, restart, []);
      ScanNoDup(ctx, targets, restart, []);
      var r := Scan(ctx, targets, restart, []);
      assert r.launches[0..] == r.launches;
    } else {
      assert restart + PortsOf([]) == restart;
    }
  }

  /** Once the leader check has passed, the guard's `any { it.port !=
      targetPort }` holds for every target port other than the own port: the
      leader itself is an instance with a different port. The conjunct never
      stops a launch, so a target that is already registered is launched
      again whenever its port is free locally. */
  lemma AnyOtherPortHoldsForLeader(instances: seq<int>, own: int, p: int)
    requires |instances| > 0 && Min(instances) == own && p != own
    ensures AnyOtherPort(instances, p)
  {
    var i :| 0 <= i < |instances| && instances[i] == own;
  }

  /** Cutting one position out of a duplicate-free list leaves a
      duplicate-free list without that element. */
  lemma NoDupCut(s: seq<int>, k: nat)
    requires NoDup(s) && k < |s|
    ensures NoDup(s[..k] + s[k + 1..])
    ensures s[k] !in s[..k] + s[k + 1..]
  {
    var r := s[..k] + s[k + 1..];
    assert forall m :: 0 <= m < |r| ==> r[m] == s[if m < k then m else m + 1];
  }

  /** The registered handler takes out exactly the event's port and
      keeps the restart list free of duplicates. */
  lemma RegisteredRemovesOnly(restart: seq<int>, port: int)
    requires NoDup(restart)
    ensures var r := Registered(restart, port);
      && NoDup(r)
      && port !in r
      && (forall q :: q != port ==> (q in r <==> q in restart))
      && |r| == (if port in restart then |restart| - 1 else |restart|)
  {
    var r := Registered(restart, port);
    if port in restart {
      var k :| CutAtFirst(restart, port, k, r);
      NoDupCut(restart, k);
    }
    forall q | q != port ensures q in r <==> q in restart {
      assert multiset(r)[q] == multiset(restart)[q];
    }
  }

  /** No port is launched twice without a registration in between: of the
      ports one renewed event launched, a later renewed event can launch
      again only the one whose registered event came in between. */
  lemma NoRelaunchUntilRegistered(isReplication1: bool, instances1: seq<int>, isReplication2: bool, instances2: seq<int>,
                                  targets: seq<(string, string)>, own: int, free1: int -> bool, free2: int -> bool,
                                  restart: seq<int>, registeredPort: int)
    requires NoDup(restart)
    ensures var first := Renewed(isReplication1, instances1, targets, own, free1, restart);
      var second := Renewed(isReplication2, instances2, targets, own, free2, Registered(first.restart, registeredPort));
      forall k, m :: (0 <= k < |first.launches| && 0 <= m < |second.launches|
                      && first.launches[k].port == second.launches[m].port)
                     ==> first.launches[k].port == registeredPort
  {
    var first := Renewed(isReplication1, instances1, targets, own, free1, restart);
    RenewedLaunches(isReplication1, instances1, targets, own, free1, restart);
    var between := Registered(first.restart, registeredPort);
    RegisteredRemovesOnly(first.restart, registeredPort);
    RenewedLaunches(isReplication2, instances2, targets, own, free2, between);
    forall k | 0 <= k < |first.launches| ensures first.launches[k].port in first.restart {
      PortsOfAt(first.launches, k);
      assert first.restart[|restart| + k] == first.launches[k].port;
    }
  }

  // ---------------------------------------------------------------- the handler object

  predicate Sorted(s: seq<int>) {
    forall i, j :: 0 <= i < j < |s| ==> s[i] <= s[j]
  }

  /** Sorting by port puts the smallest port first. */
  lemma SortedFirstIsMin(sorted: seq<int>, s: seq<int>)
    requires |s| > 0 && Sorted(sorted) && multiset(sorted) == multiset(s)
    ensures |sorted| > 0 && sorted[0] == Min(s)
  {
    assert |sorted| == |s| by { assert |multiset(sorted)| == |multiset(s)|; }
    assert Min(s) in multiset(sorted);
    assert sorted[0] in multiset(s);
  }

  /** `any` does not depend on the order of the list. */
  lemma AnyOtherPortPermuted(t: seq<int>, s: seq<int>, p: int)
    requires multiset(t) == multiset(s)
    ensures AnyOtherPort(t, p) <==> AnyOtherPort(s, p)
  {
    if AnyOtherPort(s, p) {
      var i :| 0 <= i < |s| && s[i] != p;
      assert s[i] in multiset(t);
    }
    if AnyOtherPort(t, p) {
      var i :| 0 <= i < |t| && t[i] != p;
      assert t[i] in multiset(s);
    }
  }

  /** The loop reads the instance list only through `any`, so it makes no
      difference that it runs on the sorted list. */
  lemma {:induction false} ScanPermuted(ctx: Context, s: seq<int>, targets: seq<(string, string)>,
                                        restart: seq<int>, launches: seq<Launch>)
    requires multiset(ctx.instances) == multiset(s)
    ensures Scan(ctx, targets, restart, launches) == Scan(ctx.(instances := s), targets, restart, launches)
    decreases |targets|
  {
    if targets != [] && ctx.parse(targets[0].0).Some? {
      var p := ctx.parse(targets[0].0).value;
      AnyOtherPortPermuted(ctx.instances, s, p);
      ScanPermuted(ctx, s, targets[1..], restart + [p], launches + [Launch(p, targets[0].1)]);
      ScanPermuted(ctx, s, targets[1..], restart, launches);
    }
  }

  /** Exchanges two neighbouring cells. */
  method SwapDown(a: array<int>, j: nat)
    requires 0 < j < a.Length
    modifies a
    ensures a[..] == old(a[..])[j - 1 := old(a[j])][j := old(a[j - 1])]
    ensures multiset(a[..]) == multiset(old(a[..]))
  {
    a[j - 1], a[j] := a[j], a[j - 1];
  }

  /** `sortBy(InstanceInfo::getPort)` on the registry's instance list, in
      place (an insertion sort stands for the library's sort). */
  method SortByPort(a: array<int>)
    modifies a
    ensures Sorted(a[..])
    ensures multiset(a[..]) == multiset(old(a[..]))
  {
    var i := 0;
    while i < a.Length
      invariant 0 <= i <= a.Length
      invariant Sorted(a[..i])
      invariant multiset(a[..]) == multiset(old(a[..]))
    {
      var j := i;
      while j > 0 && a[j - 1] > a[j]
        invariant 0 <= j <= i
        invariant forall p, q :: 0 <= p < q <= i && q != j ==> a[p] <= a[q]
        invariant 0 < j < i ==> a[j - 1] <= a[j + 1]
        invariant multiset(a[..]) == multiset(old(a[..]))
      {
        SwapDown(a, j);
        j := j - 1;
      }
      i := i + 1;
    }
  }

  class EurekaEventHandler {
    /** `server.port`: this server's own port. */
    const port: int
    /** `lj.jarPath`: the jar a launched process runs. */
    const jarPath: string
    /** `lj.targetInstances`: port keys to profiles, in map order. */
    const targetInstances: seq<(string, string)>
    /** Ports launched and not yet seen registering. */
    var portsInRestart: seq<int>

    ghost predicate Valid()
      reads this
    {
      NoDup(portsInRestart) && DistinctKeys(targetInstances)
    }

    constructor(port: int, jarPath: string, targetInstances: seq<(string, string)>)
      requires DistinctKeys(targetInstances)
      ensures Valid()
      ensures this.port == port && this.jarPath == jarPath && this.targetInstances == targetInstances
      ensures portsInRestart == []
    {
      this.port := port;
      this.jarPath := jarPath;
      this.targetInstances := targetInstances;
      portsInRestart := [];
    }

    /** `listen(EurekaInstanceRegisteredEvent)` for an instance on `eventPort`. */
    method OnRegistered(eventPort: int)
      requires Valid()
      modifies this
      ensures Valid()
      ensures portsInRestart == Registered(old(portsInRestart), eventPort)
    {
      if eventPort in portsInRestart {
        RegisteredRemovesOnly(portsInRestart, eventPort);
        portsInRestart := Registered(portsInRestart, eventPort);
      }
    }

    /** `listen(EurekaInstanceRenewedEvent)`: `instances` holds the ports of
        the application's registered instances, `free` answers the port
        probe. Returns the processes launched and how the handler ended; when
        the size check passed, the instance list has been sorted in place. */
    method OnRenewed(isReplication: bool, instances: array<int>, free: int -> bool)
      returns (launches: seq<Launch>, outcome: Outcome)
      requires Valid()
      modifies this, instances
      ensures Valid()
      ensures Renewal(portsInRestart, launches, outcome)
              == Renewed(isReplication, old(instances[..]), targetInstances, port, free, old(portsInRestart))
      ensures isReplication && instances.Length != |targetInstances| ==>
                Sorted(instances[..]) && multiset(instances[..]) == multiset(old(instances[..]))
      ensures !isReplication || instances.Length == |targetInstances| ==> instances[..] == old(instances[..])
    {
      ghost var snapshot := instances[..];
      launches, outcome := [], Completed;
      if !isReplication || instances.Length == |targetInstances| {
        return;
      }
      SortByPort(instances);
      if instances.Length == 0 {
        outcome := NoSuchElement;
        return;
      }
      SortedFirstIsMin(instances[..], snapshot);
      if instances[0] != port {
        return;
      }
      ScanPermuted(Context(KeyToPort, port, instances[..], free), snapshot, targetInstances, portsInRestart, []);
      ScanNoDup(Context(KeyToPort, port, instances[..], free), targetInstances, portsInRestart, []);
      launches, outcome := LaunchMissing(Context(KeyToPort, port, instances[..], free));
    }

    /** The loop over `targetInstances`: parses each key, launches the
        target when the guard passes, and stops at the first key that is
        not a number. */
    method LaunchMissing(ctx: Context) returns (launches: seq<Launch>, outcome: Outcome)
      requires ctx.own == port
      modifies this
      ensures Renewal(portsInRestart, launches, outcome) == Scan(ctx, targetInstances, old(portsInRestart), [])
    {
      launches, outcome := [], Completed;
      var i := 0;
      while i < |targetInstances|
        invariant 0 <= i <= |targetInstances|
        invariant Scan(ctx, targetInstances[i..], portsInRestart, launches)
                  == Scan(ctx, targetInstances, old(portsInRestart), [])
      {
        var (key, profile) := targetInstances[i];
        assert targetInstances[i..][1..] == targetInstances[i + 1..];
        assert targetInstances[i..][0] == (key, profile);
        var parsed := ctx.parse(key);
        if parsed.None? {
          outcome := NumberFormat(key);
          return;
        }
        var targetPort := parsed.value;
        if targetPort != port && AnyOtherPort(ctx.instances, targetPort) && targetPort !in portsInRestart
           && CheckPortCanUse(targetPort, ctx.free) {
          portsInRestart := portsInRestart + [targetPort];
          launches := launches + [Launch(targetPort, profile)];
        }
        i := i + 1;
      }
    }
  }
}
