/** `installNetworkLog(containerName)`, identical in the center and platform
    pages: when the page has a `networkLog` box, `window.fetch` is replaced
    by a wrapper that logs every request and its outcome into the box and
    otherwise passes the call through. The clock readings and the
    `toFixed(1)` durations are inputs; the underlying fetch is an outcome
    handed in by the caller. */
module NetLog {
  import opened Results
  import opened Text
  import opened JsValues

  const READY: string := "Network Log ready."

  /** The first argument of `fetch`: a string, or another value with its
      `url` property (a `Request`) and its `String(input)` rendering. */
  datatype FetchInput = UrlString(s: string) | NonString(url: Option<string>, rendered: string)

  /** The second argument of `fetch`, when given. */
  datatype FetchInit = FetchInit(httpMethod: Option<string>)

  /** A response, passed back to the caller untouched. */
  datatype Response = Response(status: int, body: string)

  /** A reading of the local clock. */
  datatype Clock = Clock(hours: nat, minutes: nat, seconds: nat, millis: nat)

  predicate ValidClock(c: Clock)
  {
    c.hours < 24 && c.minutes < 60 && c.seconds < 60 && c.millis < 1000
  }

  /** What one wrapper reads off the clock for one call: when the request
      went out, when it settled, and the elapsed time as `toFixed(1)`
      prints it. */
  datatype Timing = Timing(sent: Clock, settled: Clock, duration: string)

  /** `String(n).padStart(width, '0')`. */
  function Pad(n: nat, width: nat): string
  {
    PadStart(NatToString(n), width, '0')
  }

  /** `ts()`: `HH:MM:SS.mmm`. */
  function Ts(c: Clock): string
  {
    Pad(c.hours, 2) + ":" + Pad(c.minutes, 2) + ":" + Pad(c.seconds, 2) + "." + Pad(c.millis, 3)
  }

  /** A valid clock reading prints as twelve characters: the hours,
      minutes and seconds padded to two digits and the milliseconds to
      three, at fixed places between the separators. */
  lemma TsLayout(c: Clock)
    requires ValidClock(c)
    ensures |Ts(c)| == 12 && Ts(c)[2] == ':' && Ts(c)[5] == ':' && Ts(c)[8] == '.'
    ensures forall i :: 0 <= i < 12 && i != 2 && i != 5 && i != 8 ==> IsDigit(Ts(c)[i])
    ensures Ts(c)[0..2] == Pad(c.hours, 2) && Ts(c)[3..5] == Pad(c.minutes, 2)
    ensures Ts(c)[6..8] == Pad(c.seconds, 2) && Ts(c)[9..12] == Pad(c.millis, 3)
  {
    PadField(c.hours, 2);
    PadField(c.minutes, 2);
    PadField(c.seconds, 2);
    PadField(c.millis, 3);
    TsPieces(Pad(c.hours, 2), Pad(c.minutes, 2), Pad(c.seconds, 2), Pad(c.millis, 3));
  }

  /** A field that fits its width is padded to exactly that many digits
      and reads back as its value. */
  lemma PadField(n: nat, width: nat)
    requires 1 <= width <= 3
    requires n < if width == 1 then 10 else if width == 2 then 100 else 1000
    ensures |Pad(n, width)| == width
    ensures forall i :: 0 <= i < width ==> IsDigit(Pad(n, width)[i])
    ensures ParseDigits(Pad(n, width)) == n
  {
    PaddedNumber(n, width);
  }

  lemma TsPieces(h: string, m: string, s: string, ms: string)
    requires |h| == 2 && |m| == 2 && |s| == 2 && |ms| == 3
    requires forall i :: 0 <= i < 2 ==> IsDigit(h[i]) && IsDigit(m[i]) && IsDigit(s[i])
    requires forall i :: 0 <= i < 3 ==> IsDigit(ms[i])
    ensures var t := h + ":" + m + ":" + s + "." + ms;
            |t| == 12 && t[2] == ':' && t[5] == ':' && t[8] == '.'
            && (forall i :: 0 <= i < 12 && i != 2 && i != 5 && i != 8 ==> IsDigit(t[i]))
            && t[0..2] == h && t[3..5] == m && t[6..8] == s && t[9..12] == ms
  {
    var t := h + ":" + m + ":" + s + "." + ms;
    assert t[0..2] == h && t[3..5] == m && t[6..8] == s && t[9..12] == ms;
  }

  /** One line of the log: `[ts] [container] text` and a newline. */
  function Line(ts: string, container: string, text: string): string
  {
    "[" + ts + "] [" + container + "] " + text + "\n"
  }

  /** The text of a line starts right after the time stamp and the
      container name, and the line ends with its only newline when neither
      contains one. */
  lemma LineLayout(ts: string, container: string, text: string)
    ensures var l := Line(ts, container, text);
            |l| == |ts| + |container| + |text| + 7
            && l[|ts| + |container| + 6..|l| - 1] == text && l[|l| - 1] == '\n'
  {
  }

  /** The logged method: `init.method` upper-cased, `GET` when absent or
      empty. */
  function LoggedMethod(init: Option<FetchInit>): string
  {
    if init.Some? && Truthy(init.value.httpMethod) then ToUpper(init.value.httpMethod.value) else "GET"
  }

  /** The logged method has no lower-case letter, and it is `GET` exactly
      when no method is given. */
  lemma LoggedMethodSpec(init: Option<FetchInit>)
    ensures forall i :: 0 <= i < |LoggedMethod(init)| ==> !('a' <= LoggedMethod(init)[i] <= 'z')
    ensures !(init.Some? && Truthy(init.value.httpMethod)) ==> LoggedMethod(init) == "GET"
    ensures init.Some? && Truthy(init.value.httpMethod) ==>
              |LoggedMethod(init)| == |init.value.httpMethod.value|
              && ToUpper(LoggedMethod(init)) == LoggedMethod(init)
  {
    if init.Some? && Truthy(init.value.httpMethod) {
      ToUpperIdempotent(init.value.httpMethod.value);
    }
  }

  /** The logged URL: the input itself when it is a string, else its `url`
      when that is set, else `String(input)`. */
  function LoggedUrl(input: FetchInput): string
  {
    if input.UrlString? then input.s
    else if Truthy(input.url) then input.url.value
    else input.rendered
  }

  function RequestText(verb: string, url: string): string
  {
    "→ " + verb + " " + url
  }

  /** The outcome line: `←` with the status, or `×` with the error's
      message (its `String` when the message is empty). */
  function OutcomeText(verb: string, url: string, outcome: Result<Response, JsError>, duration: string): string
  {
    match outcome
    case Ok(res) => "← " + verb + " " + url + "  " + IntToString(res.status) + "  " + duration + "ms"
    case Err(e) => "× " + verb + " " + url + "  ERR  " + duration + "ms  "
                   + (if e.message != "" then e.message else ErrorText(e))
  }

  /** What a line of the log reports: a request going out, a request
      settling, or the wrapper being ready. */
  datatype Event =
    | Sent(verb: string, url: string)
    | Settled(verb: string, url: string, outcome: Result<Response, JsError>, duration: string)
    | Ready

  /** One line of the log: the clock reading, the container, the event. */
  datatype Entry = Entry(at: Clock, container: string, event: Event)

  function EventText(e: Event): string
  {
    match e
    case Sent(verb, url) => RequestText(verb, url)
    case Settled(verb, url, outcome, duration) => OutcomeText(verb, url, outcome, duration)
    case Ready => READY
  }

  /** A request line starts with `→`, a settled line with `←` on success
      and `×` on failure. */
  lemma EventMarks(e: Event)
    ensures e.Sent? ==> EventText(e)[0] == '→'
    ensures e.Settled? && e.outcome.Ok? ==> EventText(e)[0] == '←'
    ensures e.Settled? && e.outcome.Err? ==> EventText(e)[0] == '×'
  {
  }

  /** The text an entry adds to the box. */
  function Render(e: Entry): string
  {
    Line(Ts(e.at), e.container, EventText(e.event))
  }

  /** Pieces joined one after the other. */
  function Cat<T>(pieces: seq<seq<T>>): seq<T>
  {
    if |pieces| == 0 then [] else Cat(pieces[..|pieces| - 1]) + pieces[|pieces| - 1]
  }

  /** Joining distributes over appending the pieces. */
  lemma {:induction false} CatAppend<T>(a: seq<seq<T>>, b: seq<seq<T>>)
    ensures Cat(a + b) == Cat(a) + Cat(b)
    decreases |b|
  {
    if |b| == 0 {
      assert a + b == a;
    } else {
      var init, last := b[..|b| - 1], b[|b| - 1];
      assert (a + b)[..|a + b| - 1] == a + init;
      CatAppend(a, init);
      assert Cat(a) + Cat(init) + last == Cat(a) + (Cat(init) + last);
    }
  }

  /** Each entry's text, in order. */
  function Rendered(entries: seq<Entry>): (r: seq<string>)
    ensures |r| == |entries|
  {
    seq(|entries|, i requires 0 <= i < |entries| => Render(entries[i]))
  }

  /** The box's text: its entries rendered one after the other. */
  function BoxText(entries: seq<Entry>): string
  {
    Cat(Rendered(entries))
  }

  /** Appending entries appends their text. */
  lemma BoxTextAppend(a: seq<Entry>, b: seq<Entry>)
    ensures BoxText(a + b) == BoxText(a) + BoxText(b)
  {
    assert Rendered(a + b) == Rendered(a) + Rendered(b);
    CatAppend(Rendered(a), Rendered(b));
  }

  /** The request entry of every wrapper, in installation order. */
  function Requests(ws: seq<string>, timings: seq<Timing>, verb: string, url: string): (r: seq<Entry>)
    requires |timings| == |ws|
    ensures |r| == |ws|
    ensures forall i :: 0 <= i < |ws| ==> r[i] == Entry(timings[i].sent, ws[i], Sent(verb, url))
  {
    seq(|ws|, i requires 0 <= i < |ws| => Entry(timings[i].sent, ws[i], Sent(verb, url)))
  }

  /** The settled entry of every wrapper, in installation order. */
  function Outcomes(ws: seq<string>, timings: seq<Timing>, verb: string, url: string,
                    outcome: Result<Response, JsError>): (r: seq<Entry>)
    requires |timings| == |ws|
    ensures |r| == |ws|
    ensures forall i :: 0 <= i < |ws| ==>
              r[i] == Entry(timings[i].settled, ws[i], Settled(verb, url, outcome, timings[i].duration))
  {
    seq(|ws|, i requires 0 <= i < |ws| => Entry(timings[i].settled, ws[i], Settled(verb, url, outcome, timings[i].duration)))
  }

  /** Wrappers nested `k` deep, each writing `reqs[i]` before and `outs[i]`
      after the inner ones: the `k`-th writes its first line, lets the
      `k - 1` inside it write theirs, then writes its second line. */
  function Nest<T>(reqs: seq<T>, outs: seq<T>, k: nat): seq<T>
    requires k <= |reqs| && k <= |outs|
  {
    if k == 0 then [] else [reqs[k - 1]] + Nest(reqs, outs, k - 1) + [outs[k - 1]]
  }

  /** Nesting orders the lines: `k` wrappers write `2k` lines, first lines
      from the outermost wrapper inwards, then second lines from the
      innermost outwards. */
  lemma {:induction false} NestOrder<T>(reqs: seq<T>, outs: seq<T>, k: nat)
    requires k <= |reqs| && k <= |outs|
    ensures |Nest(reqs, outs, k)| == 2 * k
    ensures forall i :: 0 <= i < k ==> Nest(reqs, outs, k)[i] == reqs[k - 1 - i]
    ensures forall i :: 0 <= i < k ==> Nest(reqs, outs, k)[k + i] == outs[i]
  {
    if k > 0 {
      NestOrder(reqs, outs, k - 1);
      var inner, l := Nest(reqs, outs, k - 1), Nest(reqs, outs, k);
      assert forall i :: 1 <= i < 2 * k - 1 ==> l[i] == inner[i - 1];
    }
  }

  /** The entries a call appends when it passes through the wrappers
      installed under the names `ws` (the last installed is the outermost),
      the `i`-th wrapper reading the clock as `timings[i]` says. */
  function Logged(ws: seq<string>, timings: seq<Timing>, verb: string, url: string,
                  outcome: Result<Response, JsError>): seq<Entry>
    requires |timings| == |ws|
  {
    Nest(Requests(ws, timings, verb, url), Outcomes(ws, timings, verb, url, outcome), |ws|)
  }

  /** A call through `k` wrappers logs `2k` lines: the `→` lines from the
      outermost wrapper inwards, then the outcome lines, all carrying the
      same outcome, from the innermost wrapper outwards. */
  lemma LoggedNesting(ws: seq<string>, timings: seq<Timing>, verb: string, url: string,
                      outcome: Result<Response, JsError>)
    requires |timings| == |ws|
    ensures var l, k := Logged(ws, timings, verb, url, outcome), |ws|;
            |l| == 2 * k
            && (forall i :: 0 <= i < k ==> l[i] == Entry(timings[k - 1 - i].sent, ws[k - 1 - i], Sent(verb, url)))
            && (forall i :: 0 <= i < k ==>
                  l[k + i] == Entry(timings[i].settled, ws[i], Settled(verb, url, outcome, timings[i].duration)))
  {
    NestOrder(Requests(ws, timings, verb, url), Outcomes(ws, timings, verb, url, outcome), |ws|);
  }

  /** With one wrapper, a call appends exactly a `→` line and then one
      `←` line on success or one `×` line on failure. */
  lemma OneWrapperLogsTwoLines(name: string, t: Timing, input: FetchInput, init: Option<FetchInit>,
                               outcome: Result<Response, JsError>)
    ensures var m, u := LoggedMethod(init), LoggedUrl(input);
            Logged([name], [t], m, u, outcome)
              == [Entry(t.sent, name, Sent(m, u)), Entry(t.settled, name, Settled(m, u, outcome, t.duration))]
  {
    var m, u := LoggedMethod(init), LoggedUrl(input);
    assert Nest(Requests([name], [t], m, u), Outcomes([name], [t], m, u, outcome), 0) == [];
  }

  /** The page, as far as the wrapper sees it: whether it has a log box,
      the entries of the box, and the names under which fetch has been
      wrapped (none until `installNetworkLog` runs on a page with a box). */
  class Page {
    const hasBox: bool
    var entries: seq<Entry>
    var wrappers: seq<string>

    /** The box's text. */
    function Text(): string
      reads this
    {
      BoxText(entries)
    }

    constructor (hasBox: bool)
      ensures this.hasBox == hasBox && entries == [] && wrappers == []
    {
      this.hasBox := hasBox;
      entries := [];
      wrappers := [];
    }

    /** `installNetworkLog(containerName)`: nothing without a box;
        otherwise fetch is wrapped once more and the ready line written. */
    method Install(containerName: string, now: Clock)
      modifies this
      ensures !hasBox ==> wrappers == old(wrappers) && entries == old(entries)
      ensures hasBox ==> wrappers == old(wrappers) + [containerName]
                         && entries == old(entries) + [Entry(now, containerName, Ready)]
    {
      if !hasBox {
        return;
      }
      wrappers := wrappers + [containerName];
      entries := entries + [Entry(now, containerName, Ready)];
    }

    /** `window.fetch(input, init)` through the installed wrappers, the
        underlying fetch settling with `outcome`: the caller gets exactly
        that outcome, and the box gets each wrapper's two lines. */
    method Fetch(input: FetchInput, init: Option<FetchInit>, outcome: Result<Response, JsError>,
                 timings: seq<Timing>)
      returns (r: Result<Response, JsError>)
      requires |timings| == |wrappers|
      modifies this
      ensures r == outcome
      ensures wrappers == old(wrappers)
      ensures entries == old(entries) + Logged(wrappers, timings, LoggedMethod(init), LoggedUrl(input), outcome)
      ensures Text() == old(Text()) + BoxText(Logged(wrappers, timings, LoggedMethod(init), LoggedUrl(input), outcome))
    {
      r := Through(|wrappers|, input, init, outcome, timings);
      BoxTextAppend(old(entries), Logged(wrappers, timings, LoggedMethod(init), LoggedUrl(input), outcome));
    }

    /** One wrapper, the `k`-th installed, around the `k - 1` inside it. */
    method Through(k: nat, input: FetchInput, init: Option<FetchInit>, outcome: Result<Response, JsError>,
                   timings: seq<Timing>)
      returns (r: Result<Response, JsError>)
      requires k <= |wrappers| && |timings| == |wrappers|
      modifies this
      ensures r == outcome
      ensures wrappers == old(wrappers)
      ensures entries == old(entries) + Nest(Requests(wrappers, timings, LoggedMethod(init), LoggedUrl(input)),
                                              Outcomes(wrappers, timings, LoggedMethod(init), LoggedUrl(input), outcome), k)
      decreases k
    {
      if k == 0 {
        return outcome;
      }
      var verb, url := LoggedMethod(init), LoggedUrl(input);
      var name, t := wrappers[k - 1], timings[k - 1];
      ghost var reqs, outs := Requests(wrappers, timings, verb, url), Outcomes(wrappers, timings, verb, url, outcome);
      ghost var entries0 := entries;
      entries := entries + [Entry(t.sent, name, Sent(verb, url))];
      r := Through(k - 1, input, init, outcome, timings);
      entries := entries + [Entry(t.settled, name, Settled(verb, url, r, t.duration))];
      assert entries == entries0 + [reqs[k - 1]] + Nest(reqs, outs, k - 1) + [outs[k - 1]];
      assert entries0 + [reqs[k - 1]] + Nest(reqs, outs, k - 1) + [outs[k - 1]]
          == entries0 + ([reqs[k - 1]] + Nest(reqs, outs, k - 1) + [outs[k - 1]]);
    }
  }
}
