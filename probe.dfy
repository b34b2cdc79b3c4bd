/** The client's network measurement (`nma.js`): building the `/ping` URL of
    an instance address, the outcome of one ping, and the sequential
    measurement of every instance of every candidate. The page origin, the
    network and the clock are inputs: a fetch is an outcome handed in by the
    caller. */
module Probe {
  import opened Results
  import opened Text
  import opened JsValues

  const MISSING_ADDR: string := "missing addr"

  /** `joinPath(a, b)`: `a` with a `/` appended unless it already ends with
      one, followed by `b` without one leading `/`. */
  function JoinPath(a: string, b: string): string
  {
    (if EndsWith(a, "/") then a else a + "/") + (if StartsWith(b, "/") then b[1..] else b)
  }

  /** With at most one `/` on either side of the seam, the result has
      exactly one `/` there. */
  lemma JoinPathSeam(a: string, b: string, x: string, y: string)
    requires !EndsWith(a, "/") && !StartsWith(b, "/")
    requires x == "" || x == "/"
    requires y == "" || y == "/"
    ensures JoinPath(a + x, y + b) == a + "/" + b
  {
    if x == "/" {
      assert (a + x)[|a + x| - 1..] == "/";
    }
    if y == "/" {
      assert (y + b)[..1] == "/";
      assert (y + b)[1..] == b;
    } else if |b| > 0 {
      assert b[..1] != "/";
    }
  }

  /** Only one leading `/` of `b` is dropped: the result always starts with
      `a` and ends with `b` minus at most its first character. */
  lemma JoinPathBounds(a: string, b: string)
    ensures StartsWith(JoinPath(a, b), a)
    ensures EndsWith(JoinPath(a, b), if StartsWith(b, "/") then b[1..] else b)
    ensures |a| + |b| - 1 <= |JoinPath(a, b)| <= |a| + |b| + 1
  {
    var r := JoinPath(a, b);
    assert r[..|a|] == a;
  }

  /** `buildPingUrl(addr)` with `window.location.origin` passed in: a
      missing or empty address throws "missing addr"; a relative address
      is resolved against the origin. */
  function BuildPingUrl(origin: string, addr: Option<string>): Result<string, JsError>
  {
    if !Truthy(addr) then Err(Error(MISSING_ADDR))
    else if StartsWith(addr.value, "/") then Ok(JoinPath(origin, JoinPath(addr.value, "ping")))
    else Ok(JoinPath(addr.value, "ping"))
  }

  /** The URL is refused exactly when the address is missing or empty. */
  lemma BuildPingUrlMissing(origin: string, addr: Option<string>)
    ensures BuildPingUrl(origin, addr).Err? <==> addr == None || addr == Some("")
    ensures BuildPingUrl(origin, addr).Err? ==> BuildPingUrl(origin, addr).error == Error(MISSING_ADDR)
  {
  }

  /** Every built URL ends in `/ping`. */
  lemma BuildPingUrlEndsWithPing(origin: string, addr: Option<string>)
    requires BuildPingUrl(origin, addr).Ok?
    ensures EndsWith(BuildPingUrl(origin, addr).value, "/ping")
  {
    var a := addr.value;
    JoinPathPing(a);
    if StartsWith(a, "/") {
      JoinPathEnds(origin, JoinPath(a, "ping"));
    }
  }

  /** Joining onto a path that ends in `/ping` keeps that ending. */
  lemma JoinPathEnds(a: string, b: string)
    requires EndsWith(b, "/ping")
    ensures EndsWith(JoinPath(a, b), "/ping")
  {
    var d := if EndsWith(a, "/") then a else a + "/";
    var t := if StartsWith(b, "/") then b[1..] else b;
    assert JoinPath(a, b) == d + t;
    DirEndsWithSlash(a);
    TailEnds(b);
    if EndsWith(t, "/ping") {
      SuffixKept(d, t, "/ping");
    } else {
      DirPing(d);
    }
  }

  /** Dropping one leading `/` from a path ending in `/ping` leaves that
      ending, or just `ping` when the path was `/ping`. */
  lemma TailEnds(b: string)
    requires EndsWith(b, "/ping")
    ensures var t := if StartsWith(b, "/") then b[1..] else b;
            EndsWith(t, "/ping") || t == "ping"
  {
    if StartsWith(b, "/") {
      var t := b[1..];
      if |b| >= 6 {
        assert t[|t| - 5..] == b[|b| - 5..];
      } else {
        assert b == b[|b| - 5..];
      }
    }
  }

  /** `joinPath(a, "ping")` is `a` as a directory followed by `ping`. */
  lemma JoinPathPing(a: string)
    ensures JoinPath(a, "ping") == (if EndsWith(a, "/") then a else a + "/") + "ping"
    ensures EndsWith(JoinPath(a, "ping"), "/ping")
    ensures !EndsWith(a, "/") ==> JoinPath(a, "ping") == a + "/ping"
  {
    PingHasNoSlash();
    DirEndsWithSlash(a);
    DirPing(if EndsWith(a, "/") then a else a + "/");
  }

  lemma DirEndsWithSlash(a: string)
    ensures EndsWith(if EndsWith(a, "/") then a else a + "/", "/")
  {
    if !EndsWith(a, "/") {
      assert (a + "/")[|a|..] == "/";
    }
  }

  lemma DirPing(d: string)
    requires EndsWith(d, "/")
    ensures EndsWith(d + "ping", "/ping")
  {
    assert d[|d| - 1..] == "/";
    assert (d + "ping")[|d| - 1..] == d[|d| - 1..] + "ping";
  }

  lemma SuffixKept(x: string, y: string, suf: string)
    requires EndsWith(y, suf)
    ensures EndsWith(x + y, suf)
  {
    assert (x + y)[|x + y| - |suf|..] == y[|y| - |suf|..];
  }

  lemma PingHasNoSlash()
    ensures !StartsWith("ping", "/")
  {
    assert "ping"[..1] == "p";
  }

  /** A relative address without a trailing `/`, against an origin without
      a trailing `/`, gives origin, address and `/ping` concatenated. */
  lemma BuildPingUrlRelative(origin: string, a: string)
    requires StartsWith(a, "/") && !EndsWith(a, "/") && !EndsWith(origin, "/")
    ensures BuildPingUrl(origin, Some(a)) == Ok(origin + a + "/ping")
  {
    JoinPathPing(a);
    var inner := a + "/ping";
    assert inner[..1] == a[..1];
    assert StartsWith(inner, "/");
    assert inner[1..] == a[1..] + "/ping";
    assert JoinPath(origin, inner) == origin + "/" + (a[1..] + "/ping");
    assert a == "/" + a[1..] by { assert a == a[..1] + a[1..]; }
    assert origin + "/" + (a[1..] + "/ping") == origin + a + "/ping";
  }

  /** An absolute address gets `/ping` appended, or just `ping` when it
      already ends with `/`. */
  lemma BuildPingUrlAbsolute(origin: string, a: string)
    requires a != "" && !StartsWith(a, "/")
    ensures !EndsWith(a, "/") ==> BuildPingUrl(origin, Some(a)) == Ok(a + "/ping")
    ensures EndsWith(a, "/") ==> BuildPingUrl(origin, Some(a)) == Ok(a + "ping")
  {
    JoinPathPing(a);
  }

  /** What one fetch of a ping URL did: it answered with a status after
      some milliseconds, or it rejected (network failure, or the abort
      after the timeout). */
  datatype NetOutcome = Responded(status: int, elapsedMs: real) | Failed(error: JsError)

  /** `Math.round`: the nearest integer, halves rounded up. */
  function Round(x: real): int
  {
    (x + 0.5).Floor
  }

  /** `pingOnce(addr)`: the URL error, the fetch error, a non-ok status as
      an error carrying the status, or the rounded elapsed time clamped at
      zero. */
  function PingOnce(origin: string, addr: Option<string>, fetch: NetOutcome): (r: Result<int, JsError>)
    ensures r.Ok? ==> r.value >= 0
  {
    match BuildPingUrl(origin, addr)
    case Err(e) => Err(e)
    case Ok(url) =>
      match fetch
      case Failed(e) => Err(e)
      case Responded(status, elapsed) =>
        if !(200 <= status < 300) then Err(Error("ping " + url + " -> HTTP " + IntToString(status)))
        else if Round(elapsed) < 0 then Ok(0)
        else Ok(Round(elapsed))
  }

  /** A non-ok status fails the ping with a message that ends in the
      status, which can be read back from it. */
  lemma PingStatusCarried(origin: string, addr: Option<string>, status: nat, elapsed: real)
    requires BuildPingUrl(origin, addr).Ok? && !(200 <= status < 300)
    ensures var r := PingOnce(origin, addr, Responded(status, elapsed));
            var digits := NatToString(status);
            r.Err? && EndsWith(r.error.message, " -> HTTP " + digits)
            && ParseDigits(r.error.message[|r.error.message| - |digits|..]) == status
  {
    var url := BuildPingUrl(origin, addr).value;
    var digits := NatToString(status);
    assert PingOnce(origin, addr, Responded(status, elapsed))
           == Err(Error("ping " + url + " -> HTTP " + digits));
    MessageEnds("ping " + url, " -> HTTP ", digits);
    ParseNatToString(status);
  }

  lemma MessageEnds(p: string, sep: string, digits: string)
    ensures var m := p + sep + digits;
            EndsWith(m, sep + digits) && m[|m| - |digits|..] == digits
  {
    var m := p + sep + digits;
    assert m == p + (sep + digits);
  }

  /** A successful ping's delay is within half a millisecond of a
      non-negative elapsed time. */
  lemma PingDelayClose(origin: string, addr: Option<string>, status: int, elapsed: real)
    requires BuildPingUrl(origin, addr).Ok? && 200 <= status < 300 && elapsed >= 0.0
    ensures var r := PingOnce(origin, addr, Responded(status, elapsed));
            r.Ok? && r.value as real - 0.5 <= elapsed < r.value as real + 0.5
  {
  }

  /** A ping fails exactly when the address is missing, the fetch rejects
      or the status is not ok. */
  lemma PingFails(origin: string, addr: Option<string>, fetch: NetOutcome)
    ensures PingOnce(origin, addr, fetch).Err? <==>
              !Truthy(addr) || fetch.Failed? || !(200 <= fetch.status < 300)
  {
  }

  /** An instance as the candidates reply may spell it. */
  datatype JsInstance = JsInstance(instanceId: Option<string>, InstanceID: Option<string>,
                                   InstanceId: Option<string>, addr: Option<string>, Addr: Option<string>)

  /** The value of an `instances` property: falsy, some non-array value, or
      an array. */
  datatype InstanceList = Missing | NotAnArray | List(items: seq<JsInstance>)

  /** A candidate: an object with the site-name and instance-list
      spellings, or a bare array of instances. */
  datatype JsCandidate =
    | Object(SiteName: Option<string>, siteName: Option<string>, site: Option<string>,
             instances: InstanceList, Instances: InstanceList)
    | Flat(items: seq<JsInstance>)

  /** One measurement as sent to the allocator. */
  datatype JsMeasurement = JsMeasurement(siteName: string, instanceId: Option<string>,
                                         addr: Option<string>, delayMs: int)

  /** `c.SiteName || c.siteName || c.site || ""`; a bare array has none of
      them. */
  function SiteNameOf(c: JsCandidate): string
  {
    if c.Flat? then "" else OrEmpty(Or(Or(c.SiteName, c.siteName), c.site))
  }

  /** `c.instances || c.Instances || c`: the candidate itself when neither
      property is set, which is an array only for a bare array. */
  function InstancesOf(c: JsCandidate): InstanceList
  {
    if c.Flat? then List(c.items)
    else if !c.instances.Missing? then c.instances
    else if !c.Instances.Missing? then c.Instances
    else NotAnArray
  }

  function IdOf(inst: JsInstance): Option<string>
  {
    Or(Or(inst.instanceId, inst.InstanceID), inst.InstanceId)
  }

  function AddrOf(inst: JsInstance): Option<string>
  {
    Or(inst.addr, inst.Addr)
  }

  /** What is pinged: a site name and an instance. */
  datatype Target = Target(siteName: string, inst: JsInstance)

  /** The first `n` instances of `items`, in order, each with `site`. */
  function Tagged(site: string, items: seq<JsInstance>, n: nat): seq<Target>
    requires n <= |items|
  {
    if n == 0 then [] else Tagged(site, items, n - 1) + [Target(site, items[n - 1])]
  }

  /** The targets of one candidate: each instance of its list, in order,
      with the candidate's site name; none when the list is not an array. */
  function TargetsOf(c: JsCandidate): seq<Target>
  {
    match InstancesOf(c)
    case List(items) => Tagged(SiteNameOf(c), items, |items|)
    case _ => []
  }

  /** The first `n` groups of `gs`, concatenated in order. */
  function Flat<T>(gs: seq<seq<T>>, n: nat): seq<T>
    requires n <= |gs|
  {
    if n == 0 then [] else Flat(gs, n - 1) + gs[n - 1]
  }

  /** Groups `i` up to `n` of `gs`, concatenated in order. */
  function FlatBetween<T>(gs: seq<seq<T>>, i: nat, n: nat): seq<T>
    requires i <= n <= |gs|
    decreases n
  {
    if n == i then [] else FlatBetween(gs, i, n - 1) + gs[n - 1]
  }

  /** The targets of each candidate, candidate by candidate. */
  function Groups(cs: seq<JsCandidate>): (gs: seq<seq<Target>>)
    ensures |gs| == |cs|
  {
    seq(|cs|, i requires 0 <= i < |cs| => TargetsOf(cs[i]))
  }

  /** The targets of a candidate list. */
  function Targets(cs: seq<JsCandidate>): seq<Target>
  {
    Flat(Groups(cs), |cs|)
  }

  /** `cands || []`. */
  function CandidateList(cands: Option<seq<JsCandidate>>): seq<JsCandidate>
  {
    if cands.Some? then cands.value else []
  }

  /** Pinging the targets in order, the `k`-th with the `k`-th fetch outcome;
      the first failure is the result. */
  function MeasureAll(origin: string, ts: seq<Target>, net: nat -> NetOutcome): Result<seq<JsMeasurement>, JsError>
  {
    if |ts| == 0 then Ok([])
    else
      match MeasureAll(origin, ts[..|ts| - 1], net)
      case Err(e) => Err(e)
      case Ok(ms) =>
        var t := ts[|ts| - 1];
        match PingOnce(origin, AddrOf(t.inst), net(|ts| - 1))
        case Err(e) => Err(e)
        case Ok(d) => Ok(ms + [JsMeasurement(t.siteName, IdOf(t.inst), AddrOf(t.inst), d)])
  }

  /** `measureDelays(cands)`. */
  function Measured(origin: string, cands: Option<seq<JsCandidate>>, net: nat -> NetOutcome): Result<seq<JsMeasurement>, JsError>
  {
    MeasureAll(origin, Targets(CandidateList(cands)), net)
  }

  /** The loop of `measureDelays`: for each candidate with an instance
      array, ping each instance in turn and push its measurement; the first
      failing ping ends the whole call. */
  method MeasureDelays(origin: string, cands: Option<seq<JsCandidate>>, net: nat -> NetOutcome)
    returns (r: Result<seq<JsMeasurement>, JsError>)
    ensures cands == None ==> r == Ok([])
    ensures r == Measured(origin, cands, net)
  {
    var list := CandidateList(cands);
    var out: seq<JsMeasurement> := [];
    for i := 0 to |list|
      invariant MeasureAll(origin, Flat(Groups(list), i), net) == Ok(out)
    {
      var step := MeasureNext(origin, list, i, out, net);
      if step.Err? {
        FlatAborts(origin, list, i + 1, net);
        return step;
      }
      out := step.value;
    }
    return Ok(out);
  }

  /** One pass of the outer loop: a candidate without an instance array is
      skipped, any other one is measured. */
  method MeasureNext(origin: string, list: seq<JsCandidate>, i: nat, out: seq<JsMeasurement>, net: nat -> NetOutcome)
    returns (r: Result<seq<JsMeasurement>, JsError>)
    requires i < |list|
    requires MeasureAll(origin, Flat(Groups(list), i), net) == Ok(out)
    ensures r == MeasureAll(origin, Flat(Groups(list), i + 1), net)
  {
    var c := list[i];
    ghost var done := Flat(Groups(list), i);
    assert Flat(Groups(list), i + 1) == done + TargetsOf(c);
    if !InstancesOf(c).List? {
      assert done + TargetsOf(c) == done;
      return Ok(out);
    }
    r := MeasureCandidate(origin, c, out, net);
    assert done + Tagged(SiteNameOf(c), InstancesOf(c).items, 0) == done;
    MeasureItemsAll(origin, done, SiteNameOf(c), InstancesOf(c).items, 0, out, net);
  }

  /** A failure among the first `n` candidates' targets is the result. */
  lemma FlatAborts(origin: string, list: seq<JsCandidate>, n: nat, net: nat -> NetOutcome)
    requires n <= |list| && MeasureAll(origin, Flat(Groups(list), n), net).Err?
    ensures MeasureAll(origin, Targets(list), net) == MeasureAll(origin, Flat(Groups(list), n), net)
  {
    FlatPrefix(Groups(list), n, |list|);
    MeasureAllAborts(origin, Flat(Groups(list), n), FlatBetween(Groups(list), n, |list|), net);
  }

  /** The inner loop over one candidate's instances, continuing from the
      measurements `out0`. */
  method MeasureCandidate(origin: string, c: JsCandidate, out0: seq<JsMeasurement>, net: nat -> NetOutcome)
    returns (r: Result<seq<JsMeasurement>, JsError>)
    requires InstancesOf(c).List?
    ensures r == MeasureItems(origin, SiteNameOf(c), InstancesOf(c).items, 0, out0, net)
  {
    var siteName := SiteNameOf(c);
    var items := InstancesOf(c).items;
    var out := out0;
    for j := 0 to |items|
      invariant MeasureItems(origin, siteName, items, 0, out0, net) == MeasureItems(origin, siteName, items, j, out, net)
    {
      var inst := items[j];
      var delay := PingOnce(origin, AddrOf(inst), net(|out|));
      if delay.Err? {
        return Err(delay.error);
      }
      out := out + [JsMeasurement(siteName, IdOf(inst), AddrOf(inst), delay.value)];
    }
    return Ok(out);
  }

  /** The instances of one candidate from the `j`-th on, pinged in order
      after the measurements `out`; the ping of each is numbered by the
      measurements before it. */
  function MeasureItems(origin: string, site: string, items: seq<JsInstance>, j: nat, out: seq<JsMeasurement>,
                        net: nat -> NetOutcome): Result<seq<JsMeasurement>, JsError>
    requires j <= |items|
    decreases |items| - j
  {
    if j == |items| then Ok(out)
    else
      var inst := items[j];
      match PingOnce(origin, AddrOf(inst), net(|out|))
      case Err(e) => Err(e)
      case Ok(d) => MeasureItems(origin, site, items, j + 1, out + [JsMeasurement(site, IdOf(inst), AddrOf(inst), d)], net)
  }

  /** The inner loop continues the batch: after targets measured as `out`,
      measuring the rest of a candidate's instances is measuring all the
      targets up to the candidate's last instance. */
  lemma {:induction false} MeasureItemsAll(origin: string, done: seq<Target>, site: string, items: seq<JsInstance>,
                                           j: nat, out: seq<JsMeasurement>, net: nat -> NetOutcome)
    requires j <= |items| && MeasureAll(origin, done + Tagged(site, items, j), net) == Ok(out)
    ensures MeasureItems(origin, site, items, j, out, net) == MeasureAll(origin, done + Tagged(site, items, |items|), net)
    decreases |items| - j
  {
    if j < |items| {
      InstanceStep(origin, done, site, items, j, out, net);
      var inst := items[j];
      var d := PingOnce(origin, AddrOf(inst), net(|out|));
      if d.Err? {
        TaggedAborts(origin, done, site, items, j + 1, net);
      } else {
        MeasureItemsAll(origin, done, site, items, j + 1, out + [JsMeasurement(site, IdOf(inst), AddrOf(inst), d.value)], net);
      }
    }
  }

  /** One pass of the inner loop, as `MeasureAll` sees it. */
  lemma InstanceStep(origin: string, done: seq<Target>, site: string, items: seq<JsInstance>, j: nat,
                     out: seq<JsMeasurement>, net: nat -> NetOutcome)
    requires j < |items| && MeasureAll(origin, done + Tagged(site, items, j), net) == Ok(out)
    ensures var inst := items[j];
            var d := PingOnce(origin, AddrOf(inst), net(|out|));
            MeasureAll(origin, done + Tagged(site, items, j + 1), net)
              == if d.Err? then Err(d.error) else Ok(out + [JsMeasurement(site, IdOf(inst), AddrOf(inst), d.value)])
  {
    var t := Target(site, items[j]);
    assert done + Tagged(site, items, j + 1) == (done + Tagged(site, items, j)) + [t];
    MeasureStep(origin, done + Tagged(site, items, j), t, out, net);
  }

  /** `Tagged` holds `n` targets, the `k`-th being the `k`-th instance. */
  lemma {:induction false} TaggedSpec(site: string, items: seq<JsInstance>, n: nat)
    requires n <= |items|
    ensures |Tagged(site, items, n)| == n
    ensures forall k :: 0 <= k < n ==> Tagged(site, items, n)[k] == Target(site, items[k])
  {
    if n > 0 {
      TaggedSpec(site, items, n - 1);
    }
  }

  /** One more target: its ping, numbered by the measurements so far. */
  lemma MeasureStep(origin: string, ts: seq<Target>, t: Target, out: seq<JsMeasurement>, net: nat -> NetOutcome)
    requires MeasureAll(origin, ts, net) == Ok(out)
    ensures var d := PingOnce(origin, AddrOf(t.inst), net(|out|));
            MeasureAll(origin, ts + [t], net)
              == if d.Err? then Err(d.error)
                 else Ok(out + [JsMeasurement(t.siteName, IdOf(t.inst), AddrOf(t.inst), d.value)])
  {
    MeasureAllLength(origin, ts, net);
    assert (ts + [t])[..|ts|] == ts;
  }

  lemma {:induction false} MeasureAllLength(origin: string, ts: seq<Target>, net: nat -> NetOutcome)
    ensures MeasureAll(origin, ts, net).Ok? ==> |MeasureAll(origin, ts, net).value| == |ts|
  {
    if |ts| > 0 {
      MeasureAllLength(origin, ts[..|ts| - 1], net);
    }
  }

  /** The first groups' elements begin those of more groups. */
  lemma {:induction false} FlatPrefix<T>(gs: seq<seq<T>>, i: nat, n: nat)
    requires i <= n <= |gs|
    ensures Flat(gs, n) == Flat(gs, i) + FlatBetween(gs, i, n)
    decreases n
  {
    if i < n {
      FlatPrefix(gs, i, n - 1);
      var a, b, z := Flat(gs, i), FlatBetween(gs, i, n - 1), gs[n - 1];
      assert (a + b) + z == a + (b + z);
    }
  }

  /** Once some leading targets fail, the whole batch fails with the same
      error. */
  lemma {:induction false} MeasureAllAborts(origin: string, p: seq<Target>, q: seq<Target>, net: nat -> NetOutcome)
    requires MeasureAll(origin, p, net).Err?
    ensures MeasureAll(origin, p + q, net) == MeasureAll(origin, p, net)
    decreases |q|
  {
    if |q| == 0 {
      assert p + q == p;
    } else {
      var init := q[..|q| - 1];
      MeasureAllAborts(origin, p, init, net);
      assert p + q == (p + init) + [q[|q| - 1]];
      MeasureSnocErr(origin, p + init, q[|q| - 1], net);
    }
  }

  lemma MeasureSnocErr(origin: string, ts: seq<Target>, t: Target, net: nat -> NetOutcome)
    requires MeasureAll(origin, ts, net).Err?
    ensures MeasureAll(origin, ts + [t], net) == MeasureAll(origin, ts, net)
  {
    assert (ts + [t])[..|ts|] == ts;
  }

  /** The same for the instances of one candidate. */
  lemma {:induction false} TaggedAborts(origin: string, done: seq<Target>, site: string, items: seq<JsInstance>,
                                        n: nat, net: nat -> NetOutcome)
    requires n <= |items| && MeasureAll(origin, done + Tagged(site, items, n), net).Err?
    ensures MeasureAll(origin, done + Tagged(site, items, |items|), net)
            == MeasureAll(origin, done + Tagged(site, items, n), net)
    decreases |items| - n
  {
    if n < |items| {
      var t := Target(site, items[n]);
      assert done + Tagged(site, items, n + 1) == (done + Tagged(site, items, n)) + [t];
      MeasureSnocErr(origin, done + Tagged(site, items, n), t, net);
      TaggedAborts(origin, done, site, items, n + 1, net);
    }
  }

  /** The ping of the `k`-th target, with the `k`-th fetch outcome. */
  function PingAt(origin: string, ts: seq<Target>, net: nat -> NetOutcome, k: nat): Result<int, JsError>
    requires k < |ts|
  {
    PingOnce(origin, AddrOf(ts[k].inst), net(k))
  }

  /** A successful batch holds one measurement per target, in order, with
      the target's site name, instance id and address copied as they were
      and a non-negative delay from that target's ping. */
  lemma {:induction false} MeasureAllOk(origin: string, ts: seq<Target>, net: nat -> NetOutcome)
    requires MeasureAll(origin, ts, net).Ok?
    ensures var ms := MeasureAll(origin, ts, net).value;
            |ms| == |ts|
            && forall k :: 0 <= k < |ts| ==>
                 PingAt(origin, ts, net, k).Ok? && ms[k].delayMs >= 0
                 && ms[k] == JsMeasurement(ts[k].siteName, IdOf(ts[k].inst), AddrOf(ts[k].inst),
                                           PingAt(origin, ts, net, k).value)
  {
    if |ts| > 0 {
      var init := ts[..|ts| - 1];
      MeasureAllOk(origin, init, net);
      assert forall k :: 0 <= k < |init| ==> PingAt(origin, init, net, k) == PingAt(origin, ts, net, k);
    }
  }

  /** A batch fails exactly when some ping fails, and then with the error
      of the first failing ping: no partial list is returned. */
  lemma {:induction false} MeasureAllErr(origin: string, ts: seq<Target>, net: nat -> NetOutcome)
    ensures MeasureAll(origin, ts, net).Err? <==> exists k :: 0 <= k < |ts| && PingAt(origin, ts, net, k).Err?
    ensures MeasureAll(origin, ts, net).Err? ==>
              exists k :: 0 <= k < |ts| && PingAt(origin, ts, net, k).Err?
                && (forall j :: 0 <= j < k ==> PingAt(origin, ts, net, j).Ok?)
                && MeasureAll(origin, ts, net).error == PingAt(origin, ts, net, k).error
  {
    if |ts| > 0 {
      var init := ts[..|ts| - 1];
      MeasureAllErr(origin, init, net);
      PingAtPrefix(origin, ts, net);
      if MeasureAll(origin, init, net).Ok? {
        MeasureAllOk(origin, init, net);
        MeasureAllErrLast(origin, ts, net);
      } else {
        assert MeasureAll(origin, ts, net) == MeasureAll(origin, init, net);
        var k :| 0 <= k < |init| && PingAt(origin, init, net, k).Err?
                 && (forall j :: 0 <= j < k ==> PingAt(origin, init, net, j).Ok?)
                 && MeasureAll(origin, init, net).error == PingAt(origin, init, net, k).error;
        assert PingAt(origin, ts, net, k) == PingAt(origin, init, net, k);
      }
    }
  }

  /** The pings of a prefix are those of the whole. */
  lemma PingAtPrefix(origin: string, ts: seq<Target>, net: nat -> NetOutcome)
    requires |ts| > 0
    ensures forall k :: 0 <= k < |ts| - 1 ==> PingAt(origin, ts[..|ts| - 1], net, k) == PingAt(origin, ts, net, k)
  {
  }

  /** After a successful prefix, the batch fails exactly when the last ping
      fails, and then with its error. */
  lemma MeasureAllErrLast(origin: string, ts: seq<Target>, net: nat -> NetOutcome)
    requires |ts| > 0 && MeasureAll(origin, ts[..|ts| - 1], net).Ok?
    requires forall k :: 0 <= k < |ts| - 1 ==> PingAt(origin, ts, net, k).Ok?
    ensures MeasureAll(origin, ts, net).Err? <==> exists k :: 0 <= k < |ts| && PingAt(origin, ts, net, k).Err?
    ensures MeasureAll(origin, ts, net).Err? ==>
              exists k :: 0 <= k < |ts| && PingAt(origin, ts, net, k).Err?
                && (forall j :: 0 <= j < k ==> PingAt(origin, ts, net, j).Ok?)
                && MeasureAll(origin, ts, net).error == PingAt(origin, ts, net, k).error
  {
    var last := |ts| - 1;
    MeasureAllLength(origin, ts[..last], net);
    assert MeasureAll(origin, ts, net).Err? <==> PingAt(origin, ts, net, last).Err?;
    if PingAt(origin, ts, net, last).Err? {
      assert MeasureAll(origin, ts, net).error == PingAt(origin, ts, net, last).error;
    }
  }

  /** The targets of two candidate lists are those of the first followed
      by those of the second: candidate-then-instance order. */
  lemma TargetsAppend(cs1: seq<JsCandidate>, cs2: seq<JsCandidate>)
    ensures Targets(cs1 + cs2) == Targets(cs1) + Targets(cs2)
  {
    var g1, g2 := Groups(cs1), Groups(cs2);
    assert Groups(cs1 + cs2) == g1 + g2;
    FlatAppend(g1, g2, |g2|);
  }

  /** Flattening two lists of groups one after the other. */
  lemma {:induction false} FlatAppend<T>(g1: seq<seq<T>>, g2: seq<seq<T>>, n: nat)
    requires n <= |g2|
    ensures Flat(g1 + g2, |g1| + n) == Flat(g1, |g1|) + Flat(g2, n)
  {
    if n == 0 {
      FlatAgree(g1 + g2, g1, |g1|);
    } else {
      FlatAppend(g1, g2, n - 1);
      assert (g1 + g2)[|g1| + n - 1] == g2[n - 1];
      var a, b, z := Flat(g1, |g1|), Flat(g2, n - 1), g2[n - 1];
      assert (a + b) + z == a + (b + z);
    }
  }

  /** Lists that agree on their first `n` groups flatten alike up to `n`. */
  lemma {:induction false} FlatAgree<T>(a: seq<seq<T>>, b: seq<seq<T>>, n: nat)
    requires n <= |a| && n <= |b|
    requires forall k :: 0 <= k < n ==> a[k] == b[k]
    ensures Flat(a, n) == Flat(b, n)
  {
    if n > 0 {
      FlatAgree(a, b, n - 1);
    }
  }

  /** A candidate whose instance list is not an array contributes nothing;
      one with an array contributes each of its instances, in order, under
      its site name. */
  lemma TargetsOfCandidate(c: JsCandidate)
    ensures !InstancesOf(c).List? ==> TargetsOf(c) == []
    ensures InstancesOf(c).List? ==>
              var items := InstancesOf(c).items;
              |TargetsOf(c)| == |items|
              && forall k :: 0 <= k < |items| ==> TargetsOf(c)[k] == Target(SiteNameOf(c), items[k])
  {
    if InstancesOf(c).List? {
      TaggedSpec(SiteNameOf(c), InstancesOf(c).items, |InstancesOf(c).items|);
    }
  }

  /** Dropping a candidate whose instance list is not an array does not
      change the measurements. */
  lemma SkippedCandidate(origin: string, cs1: seq<JsCandidate>, c: JsCandidate, cs2: seq<JsCandidate>,
                         net: nat -> NetOutcome)
    requires !InstancesOf(c).List?
    ensures Measured(origin, Some(cs1 + [c] + cs2), net) == Measured(origin, Some(cs1 + cs2), net)
  {
    TargetsAppend(cs1 + [c], cs2);
    TargetsAppend(cs1, [c]);
    TargetsAppend(cs1, cs2);
    assert Targets([c]) == [] by {
      assert TargetsOf(c) == [];
      assert Flat(Groups([c]), 1) == Flat(Groups([c]), 0) + Groups([c])[0];
    }
    assert Targets(cs1 + [c]) == Targets(cs1);
  }
}
