/**
 * The list of monitored endpoints (api/main.go:92-125): the de-duplicating
 * renamer that builds `defaultReqs`, the "first index of a name" lookup the
 * SSE and publishing paths use, and the flags the status endpoint reports.
 */
module Monitors {
  import opened GoInt
  import opened Decimal

  /** One monitored endpoint; `interval` is a Go `time.Duration`, in nanoseconds. */
  datatype HttpRequest = HttpRequest(
    host: string,
    protocol: string,
    interval: int,
    name: string,
    username: string,
    password: string)

  /** The endpoint list as written in the source, before renaming: one endpoint probed every 10 seconds. */
  const DefaultRaw: seq<HttpRequest> :=
    [HttpRequest("www.oddinpay.com", "https", 10 * NanosPerSecond, "www.oddinpay.com", "", "")]

  /** How many requests of `reqs` carry `name`. */
  function Count(reqs: seq<HttpRequest>, name: string): nat {
    if reqs == [] then 0
    else Count(reqs[..|reqs| - 1], name) + (if reqs[|reqs| - 1].name == name then 1 else 0)
  }

  /** The counter value for `name`; a missing key reads as zero, as a Go map does. */
  function Lookup(counts: map<string, nat>, name: string): nat {
    if name in counts then counts[name] else 0
  }

  /**
   * The name request `i` ends up with: the `k`-th request to carry a name,
   * for `k > 1`, is called `name-k`.
   */
  function RenamedName(raw: seq<HttpRequest>, i: int): string
    requires 0 <= i < |raw|
  {
    var k := Count(raw[..i + 1], raw[i].name);
    if k > 1 then raw[i].name + "-" + NatToDecimal(k) else raw[i].name
  }

  /** The whole renamed list: same requests, same order, repeated names numbered. */
  function Renamed(raw: seq<HttpRequest>): seq<HttpRequest> {
    seq(|raw|, i requires 0 <= i < |raw| => raw[i].(name := RenamedName(raw, i)))
  }

  /**
   * The `defaultReqs` builder (api/main.go:102-114): counts each name as it
   * goes and renames every repeat.
   */
  method RenameDuplicates(raw: seq<HttpRequest>) returns (out: seq<HttpRequest>)
    ensures out == Renamed(raw)
  {
    out := [];
    var counts: map<string, nat> := map[];
    for i := 0 to |raw|
      invariant out == Renamed(raw)[..i]
      invariant forall n :: Lookup(counts, n) == Count(raw[..i], n)
    {
      var r := raw[i];
      var name := r.name;
      CountStep(raw, i);
      ghost var before := counts;
      counts := counts[name := Lookup(counts, name) + 1];
      forall n ensures Lookup(counts, n) == Count(raw[..i + 1], n) {
        if n != name {
          assert Lookup(counts, n) == Lookup(before, n);
        }
      }
      if counts[name] > 1 {
        r := r.(name := name + "-" + NatToDecimal(counts[name]));
      }
      assert r == Renamed(raw)[i];
      assert Renamed(raw)[..i + 1] == Renamed(raw)[..i] + [r];
      out := out + [r];
    }
    assert Renamed(raw)[..|raw|] == Renamed(raw);
  }

  /** Counting over one more request adds one exactly for that request's name. */
  lemma CountStep(raw: seq<HttpRequest>, i: int)
    requires 0 <= i < |raw|
    ensures forall n :: Count(raw[..i + 1], n) == Count(raw[..i], n) + (if raw[i].name == n then 1 else 0)
  {
    assert raw[..i + 1][..i] == raw[..i];
  }

  /** A name absent from a list is counted zero times. */
  lemma {:induction false} CountAbsent(reqs: seq<HttpRequest>, name: string)
    requires forall j :: 0 <= j < |reqs| ==> reqs[j].name != name
    ensures Count(reqs, name) == 0
  {
    if reqs != [] {
      CountAbsent(reqs[..|reqs| - 1], name);
    }
  }

  /**
   * A request keeps its name exactly when it is the first to carry it;
   * every later one gets a different, numbered name.
   */
  lemma RenamedKeepsOnlyFirst(raw: seq<HttpRequest>, i: int)
    requires 0 <= i < |raw|
    ensures RenamedName(raw, i) == raw[i].name <==> Count(raw[..i], raw[i].name) == 0
  {
    assert raw[..i + 1][..i] == raw[..i];
    var k := Count(raw[..i + 1], raw[i].name);
    if k > 1 {
      assert |RenamedName(raw, i)| > |raw[i].name|;
    }
  }

  /** A list whose names are already distinct comes out unchanged. */
  lemma DistinctUnchanged(raw: seq<HttpRequest>)
    requires forall i, j :: 0 <= i < j < |raw| ==> raw[i].name != raw[j].name
    ensures Renamed(raw) == raw
  {
    forall i | 0 <= i < |raw|
      ensures RenamedName(raw, i) == raw[i].name
    {
      CountAbsent(raw[..i], raw[i].name);
      RenamedKeepsOnlyFirst(raw, i);
    }
  }

  /**
   * Renaming does not make names unique: a raw list that already holds
   * `a-2` yields two requests named `a-2`.
   */
  lemma RenamingCanCollide()
    ensures var raw := [HttpRequest("", "", 0, "a", "", ""), HttpRequest("", "", 0, "a", "", ""),
                        HttpRequest("", "", 0, "a-2", "", "")];
            Renamed(raw)[1].name == Renamed(raw)[2].name == "a-2"
  {
    var raw := [HttpRequest("", "", 0, "a", "", ""), HttpRequest("", "", 0, "a", "", ""),
                HttpRequest("", "", 0, "a-2", "", "")];
    assert raw[..1][..0] == [];
    assert Count(raw[..1], "a") == 1 && Count(raw[..1], "a-2") == 0;
    assert raw[..2][..1] == raw[..1];
    assert Count(raw[..2], "a") == 2 && Count(raw[..2], "a-2") == 0;
    assert raw[..3][..2] == raw[..2];
    assert Count(raw[..3], "a-2") == 1;
    assert NatToDecimal(2) == "2";
    assert RenamedName(raw, 1) == "a" + "-" + "2" == "a-2";
    assert RenamedName(raw, 2) == "a-2";
  }

  /**
   * The name-to-index lookup (api/main.go:674-680, 912-918): the index of
   * the first request called `name`, or -1 when there is none.
   */
  method IndexOfName(reqs: seq<HttpRequest>, name: string) returns (idx: int)
    ensures -1 <= idx < |reqs|
    ensures idx == -1 <==> forall j :: 0 <= j < |reqs| ==> reqs[j].name != name
    ensures idx >= 0 ==> reqs[idx].name == name && forall j :: 0 <= j < idx ==> reqs[j].name != name
  {
    idx := -1;
    var i := 0;
    while i < |reqs|
      invariant 0 <= i <= |reqs|
      invariant forall j :: 0 <= j < i ==> reqs[j].name != name
    {
      if reqs[i].name == name {
        idx := i;
        return;
      }
      i := i + 1;
    }
  }

  /** The two booleans the status endpoint returns. */
  datatype StatusFlags = StatusFlags(monitors: bool, miniMonitors: bool)

  /**
   * StatusHandler (api/main.go:704-714): any monitor at all, and more than
   * three of them; the second implies the first.
   */
  function StatusOf(reqs: seq<HttpRequest>): (f: StatusFlags)
    ensures f.monitors <==> reqs != []
    ensures f.miniMonitors <==> |reqs| > 3
    ensures f.miniMonitors ==> f.monitors
  {
    StatusFlags(|reqs| != 0, |reqs| > 3)
  }

  /** The shipped list needs no renaming, so the status endpoint reports one full-size monitor. */
  lemma DefaultRequests()
    ensures Renamed(DefaultRaw) == DefaultRaw
    ensures StatusOf(Renamed(DefaultRaw)) == StatusFlags(true, false)
  {
    DistinctUnchanged(DefaultRaw);
  }
}
