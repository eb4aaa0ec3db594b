/** The join of reduced soundings with surface observations (combine_snd_sfc.py,
    better_combine). Times are whole minutes; temperatures and dewpoints are
    in tenths of a degree, so the source's missing-value test `< 500` (°C)
    reads `< 5000`. */
module Combine {
  import opened Common

  /** A reduced sounding: launch time, then temperature and dewpoint at 925 and 850 hPa. */
  datatype Sounding = Sounding(time: int, t925: int, td925: int, t850: int, td850: int)

  /** A surface observation: time, temperature, dewpoint and precipitation type. */
  datatype Obs = Obs(time: int, tmp: int, dew: int, precip: int)

  /** An entry of the window of observations near one sounding: the time
      difference and the observation's values. */
  datatype Near = Near(delta: nat, tmp: int, dew: int, precip: int)

  /** An output row: the sounding's hour, the surface temperature and
      dewpoint chosen, the sounding's four values and the precipitation type. */
  datatype Row = Row(hour: int, sfcT: int, sfcTd: int, t925: int, td925: int, t850: int, td850: int, precip: int)

  const HOUR := 60
  /** Observations at most one hour away join the window. */
  const NEAR_LIMIT := 60
  /** A later observation at least two hours away ends the scan. */
  const STOP_LIMIT := 120
  /** The starting value of the running minimum time differences. */
  const NO_GAP := 120
  /** Readings of 500 °C and above are missing values. */
  const MISSING := 5000

  predicate SortedObs(obs: seq<Obs>) {
    forall i, j :: 0 <= i < j < |obs| ==> obs[i].time <= obs[j].time
  }

  predicate SortedSoundings(snd: seq<Sounding>) {
    forall i, j :: 0 <= i < j < |snd| ==> snd[i].time <= snd[j].time
  }

  predicate LabelsIn(obs: seq<Obs>, lo: int, hi: int) {
    forall i :: 0 <= i < |obs| ==> lo <= obs[i].precip <= hi
  }

  function Recode(o: Obs): Obs {
    if o.precip == 2 then o.(precip := 1) else o
  }

  /** The re-coding applied before the join: observations of type 1 are
      removed and type 2 becomes 1; order and everything else are kept. */
  function Relabel(sfc: seq<Obs>): (r: seq<Obs>)
    ensures |r| <= |sfc|
    ensures forall o :: o in r ==> exists j :: 0 <= j < |sfc| && sfc[j].precip != 1 && o == Recode(sfc[j])
    ensures forall j :: 0 <= j < |sfc| && sfc[j].precip != 1 ==> Recode(sfc[j]) in r
    ensures LabelsIn(sfc, 0, 2) ==> LabelsIn(r, 0, 1)
    decreases |sfc|
  {
    if sfc == [] then []
    else
      var rest := Relabel(sfc[1..]);
      assert forall j :: 1 <= j < |sfc| ==> sfc[1..][j - 1] == sfc[j];
      (if sfc[0].precip == 1 then [] else [Recode(sfc[0])]) + rest
  }

  lemma SortedCons(h: Obs, rest: seq<Obs>)
    requires SortedObs(rest) && forall o :: o in rest ==> h.time <= o.time
    ensures SortedObs([h] + rest)
  {
    var r := [h] + rest;
    forall a, b | 0 <= a < b < |r| ensures r[a].time <= r[b].time {
      assert r[b] == rest[b - 1];
      if a > 0 {
        assert r[a] == rest[a - 1];
      }
    }
  }

  /** Relabelling keeps the observations in time order. */
  lemma {:induction false} RelabelKeepsOrder(sfc: seq<Obs>)
    requires SortedObs(sfc)
    ensures SortedObs(Relabel(sfc))
    decreases |sfc|
  {
    if sfc != [] {
      var tail := sfc[1..];
      var rest := Relabel(tail);
      assert SortedObs(tail);
      RelabelKeepsOrder(tail);
      if sfc[0].precip != 1 {
        forall o | o in rest ensures sfc[0].time <= o.time {
          var j :| 0 <= j < |tail| && tail[j].precip != 1 && o == Recode(tail[j]);
          assert tail[j] == sfc[j + 1];
        }
        SortedCons(Recode(sfc[0]), rest);
      }
    }
  }

  /** Observation o is within one hour of time t. */
  predicate IsNear(t: int, o: Obs) { Dist(t, o.time) <= NEAR_LIMIT }

  /** Observation o is at least two hours after time t. */
  predicate IsStop(t: int, o: Obs) { Dist(t, o.time) >= STOP_LIMIT && o.time > t }

  function AsNear(t: int, o: Obs): Near {
    Near(Dist(t, o.time), o.tmp, o.dew, o.precip)
  }

  /** The window entries contributed by obs[lo..hi), in scan order. */
  function Window(t: int, obs: seq<Obs>, lo: nat, hi: nat): (w: seq<Near>)
    requires lo <= hi <= |obs|
    ensures |w| <= hi - lo
    ensures forall k :: 0 <= k < |w| ==> w[k].delta <= NEAR_LIMIT
    decreases hi - lo
  {
    if hi == lo then []
    else Window(t, obs, lo, hi - 1) + (if IsNear(t, obs[hi - 1]) then [AsNear(t, obs[hi - 1])] else [])
  }

  /** The window holds exactly the observations of the range within one hour. */
  lemma {:induction false} WindowMembers(t: int, obs: seq<Obs>, lo: nat, hi: nat)
    requires lo <= hi <= |obs|
    ensures forall n :: n in Window(t, obs, lo, hi) <==> exists j :: lo <= j < hi && IsNear(t, obs[j]) && n == AsNear(t, obs[j])
    decreases hi - lo
  {
    if hi > lo {
      WindowMembers(t, obs, lo, hi - 1);
    }
  }

  lemma {:induction false} WindowSplit(t: int, obs: seq<Obs>, lo: nat, mid: nat, hi: nat)
    requires lo <= mid <= hi <= |obs|
    ensures Window(t, obs, lo, hi) == Window(t, obs, lo, mid) + Window(t, obs, mid, hi)
    decreases hi - mid
  {
    if hi > mid {
      WindowSplit(t, obs, lo, mid, hi - 1);
    }
  }

  lemma {:induction false} WindowEmpty(t: int, obs: seq<Obs>, lo: nat, hi: nat)
    requires lo <= hi <= |obs|
    requires forall j :: lo <= j < hi ==> !IsNear(t, obs[j])
    ensures Window(t, obs, lo, hi) == []
    decreases hi - lo
  {
    if hi > lo {
      WindowEmpty(t, obs, lo, hi - 1);
    }
  }

  /** The first stopping observation at or after index j. */
  function FirstStop(t: int, obs: seq<Obs>, j: nat): (s: Option<nat>)
    requires j <= |obs|
    ensures s.None? ==> forall k :: j <= k < |obs| ==> !IsStop(t, obs[k])
    ensures s.Some? ==>
      && j <= s.value < |obs| && IsStop(t, obs[s.value])
      && forall k :: j <= k < s.value ==> !IsStop(t, obs[k])
    decreases |obs| - j
  {
    if j == |obs| then None
    else if IsStop(t, obs[j]) then Some(j)
    else FirstStop(t, obs, j + 1)
  }

  /** The last index in [lo, hi) of an observation within one hour, or lo if there is none. */
  function LastNear(t: int, obs: seq<Obs>, lo: nat, hi: nat): (k: nat)
    requires lo <= hi <= |obs|
    ensures lo <= k <= hi && (k < hi || k == lo)
    ensures k != lo ==> IsNear(t, obs[k])
    ensures forall j :: k < j < hi ==> !IsNear(t, obs[j])
    decreases hi - lo
  {
    if hi == lo then lo
    else if IsNear(t, obs[hi - 1]) then hi - 1
    else LastNear(t, obs, lo, hi - 1)
  }

  /** What the inner scan of one sounding yields: its window and the new cursor. */
  datatype Scan = Scan(window: seq<Near>, next: nat)

  /** The scan for a sounding at time t from cursor `start`. It runs to the
      first stopping observation, or to the end; the window holds the
      observations within one hour that it passed. The cursor moves to the
      stopping observation, or else to the last one within one hour, and
      stays put when there was neither. It never moves back. */
  function ScanFrom(t: int, obs: seq<Obs>, start: nat): (sc: Scan)
    requires start <= |obs|
    ensures start <= sc.next <= |obs|
  {
    match FirstStop(t, obs, start)
    case Some(s) => Scan(Window(t, obs, start, s), s)
    case None => Scan(Window(t, obs, start, |obs|), LastNear(t, obs, start, |obs|))
  }

  /** The inner loop of better_combine over the surface observations. */
  method CollectNear(t: int, obs: seq<Obs>, start: nat) returns (window: seq<Near>, next: nat)
    requires start <= |obs|
    ensures Scan(window, next) == ScanFrom(t, obs, start)
    ensures start <= next <= |obs|
  {
    window, next := [], start;
    for j := start to |obs|
      invariant forall k :: start <= k < j ==> !IsStop(t, obs[k])
      invariant window == Window(t, obs, start, j)
      invariant next == LastNear(t, obs, start, j)
    {
      var timeDif := Dist(t, obs[j].time);
      if timeDif <= NEAR_LIMIT {
        window := window + [Near(timeDif, obs[j].tmp, obs[j].dew, obs[j].precip)];
        next := j;
      }
      if timeDif >= STOP_LIMIT && obs[j].time > t {
        next := j;
        assert FirstStop(t, obs, start) == Some(j);
        return;
      }
    }
  }

  datatype Field = Temp | Dew

  function Reading(n: Near, f: Field): int {
    match f
    case Temp => n.tmp
    case Dew => n.dew
  }

  /** An entry can supply a field when it is closer than the starting gap and
      its reading is not missing. */
  predicate Usable(n: Near, f: Field) {
    n.delta < NO_GAP && Reading(n, f) < MISSING
  }

  /** Entry k is usable for f, no usable entry is closer in time, and every
      earlier usable entry is strictly farther. */
  predicate IsNearest(w: seq<Near>, f: Field, k: int) {
    0 <= k < |w| && Usable(w[k], f)
    && (forall i :: 0 <= i < |w| && Usable(w[i], f) ==> w[k].delta <= w[i].delta)
    && (forall i :: 0 <= i < k && Usable(w[i], f) ==> w[k].delta < w[i].delta)
  }

  /** The entry the running minimum settles on for f. */
  function Nearest(w: seq<Near>, f: Field): (r: Option<nat>)
    ensures r.None? <==> forall i :: 0 <= i < |w| ==> !Usable(w[i], f)
    ensures r.Some? ==> IsNearest(w, f, r.value)
    decreases |w|
  {
    if w == [] then None
    else
      var pre := w[..|w| - 1];
      var p := Nearest(pre, f);
      var n := w[|w| - 1];
      assert forall i :: 0 <= i < |pre| ==> pre[i] == w[i];
      if Usable(n, f) && (p.None? || n.delta < w[p.value].delta) then Some(|w| - 1) else p
  }

  /** The precipitation types present in a window. */
  function Kinds(w: seq<Near>): set<int> {
    set k | 0 <= k < |w| :: w[k].precip
  }

  /** One type when the window agrees, mixed (1) when it does not. */
  ghost function Transition(kinds: set<int>): (r: int)
    requires kinds != {}
    ensures |kinds| > 1 ==> r == 1
    ensures |kinds| == 1 ==> kinds == {r}
  {
    if |kinds| > 1 then 1
    else
      HasElement(kinds);
      var x :| x in kinds;
      SingletonSet(kinds, x);
      x
  }

  /** `strftime("%Y-%m-%dT%H:00:00")`: the start of the hour holding t. */
  function HourOf(t: int): (h: int)
    ensures h % HOUR == 0 && h <= t < h + HOUR
  {
    t - t % HOUR
  }

  /** The row a sounding yields from its window, if any. */
  ghost function Emit(s: Sounding, w: seq<Near>): Option<Row> {
    var nt := Nearest(w, Temp);
    var nd := Nearest(w, Dew);
    if nt.None? || nd.None? then None
    else
      assert w[nt.value].precip in Kinds(w);
      Some(Row(HourOf(s.time), w[nt.value].tmp, w[nd.value].dew, s.t925, s.td925, s.t850, s.td850,
        Transition(Kinds(w))))
  }

  /** A sounding yields no row exactly when its window has no usable
      temperature or no usable dewpoint. Otherwise the row carries the
      sounding's hour and values, the nearest usable temperature and the
      nearest usable dewpoint (possibly from different observations), and
      the precipitation type fixed by the set of types in the window. */
  lemma EmitMeaning(s: Sounding, w: seq<Near>)
    ensures Emit(s, w).None? <==>
      (forall i :: 0 <= i < |w| ==> !Usable(w[i], Temp)) || (forall i :: 0 <= i < |w| ==> !Usable(w[i], Dew))
    ensures Emit(s, w).Some? ==>
      var r := Emit(s, w).value;
      r.hour == HourOf(s.time) && r.t925 == s.t925 && r.td925 == s.td925 && r.t850 == s.t850 && r.td850 == s.td850
      && (exists k :: IsNearest(w, Temp, k) && r.sfcT == w[k].tmp)
      && (exists k :: IsNearest(w, Dew, k) && r.sfcTd == w[k].dew)
      && (|Kinds(w)| > 1 ==> r.precip == 1)
      && (|Kinds(w)| <= 1 ==> Kinds(w) == {r.precip})
  {
    var nt := Nearest(w, Temp);
    var nd := Nearest(w, Dew);
    if nt.Some? && nd.Some? {
      assert IsNearest(w, Temp, nt.value) && IsNearest(w, Dew, nd.value);
      assert w[0].precip in Kinds(w);
    }
  }

  /** The temperature or dewpoint the selection loop holds for a window. */
  function Pick(w: seq<Near>, f: Field): Option<int> {
    match Nearest(w, f)
    case None => None
    case Some(k) => Some(Reading(w[k], f))
  }

  /** The running minimum time difference the selection loop holds for a window. */
  function Gap(w: seq<Near>, f: Field): int {
    match Nearest(w, f)
    case None => NO_GAP
    case Some(k) => w[k].delta
  }

  /** One step of the selection loop: observation i replaces the pick of the
      observations before it exactly when it is usable and strictly closer. */
  lemma PickStep(w: seq<Near>, i: nat, f: Field)
    requires i < |w|
    ensures var better := w[i].delta < Gap(w[..i], f) && Reading(w[i], f) < MISSING;
      && Pick(w[..i + 1], f) == (if better then Some(Reading(w[i], f)) else Pick(w[..i], f))
      && Gap(w[..i + 1], f) == (if better then w[i].delta else Gap(w[..i], f))
  {
    var pre := w[..i + 1][..i];
    assert pre == w[..i];
    var p := Nearest(pre, f);
    if p.Some? {
      assert pre[p.value] == w[..i + 1][p.value];
    }
  }

  /** The precipitation types of a window, in order. */
  function Types(w: seq<Near>): (t: seq<int>)
    ensures |t| == |w| && forall k :: 0 <= k < |w| ==> t[k] == w[k].precip
    decreases |w|
  {
    if w == [] then [] else Types(w[..|w| - 1]) + [w[|w| - 1].precip]
  }

  lemma TypesStep(w: seq<Near>, i: nat)
    requires i < |w|
    ensures Types(w[..i + 1]) == Types(w[..i]) + [w[i].precip]
  {
    assert w[..i + 1][..i] == w[..i];
  }

  /** The set built from the collected types is the set of types in the window. */
  lemma KindsOfTypes(w: seq<Near>)
    ensures (set x | x in Types(w)) == Kinds(w)
  {
    var kinds := set x | x in Types(w);
    forall x | x in kinds ensures x in Kinds(w) {
      var k :| 0 <= k < |w| && Types(w)[k] == x;
      assert w[k].precip == x;
    }
    forall x | x in Kinds(w) ensures x in kinds {
      var k :| 0 <= k < |w| && w[k].precip == x;
      assert Types(w)[k] == x;
    }
  }

  /** Emit in terms of what the selection loop holds: the picks and the set of types. */
  lemma EmitByPick(s: Sounding, w: seq<Near>)
    ensures Pick(w, Temp).Some? ==> Kinds(w) != {}
    ensures Emit(s, w) == if Pick(w, Temp).None? || Pick(w, Dew).None? then None
      else Some(Row(HourOf(s.time), Pick(w, Temp).value, Pick(w, Dew).value, s.t925, s.td925, s.t850, s.td850,
        Transition(Kinds(w))))
  {
    if Pick(w, Temp).Some? {
      assert w[0].precip in Kinds(w);
    }
  }

  /** The selection loop of better_combine and the row it writes. */
  method PickNearest(s: Sounding, near: seq<Near>) returns (row: Option<Row>)
    ensures row == Emit(s, near)
  {
    var precipTypes: seq<int> := [];
    var nearestTemp: Option<int> := None;
    var nearestDew: Option<int> := None;
    var tempTime, dewTime := NO_GAP, NO_GAP;
    for i := 0 to |near|
      invariant precipTypes == Types(near[..i])
      invariant nearestTemp == Pick(near[..i], Temp) && tempTime == Gap(near[..i], Temp)
      invariant nearestDew == Pick(near[..i], Dew) && dewTime == Gap(near[..i], Dew)
    {
      PickStep(near, i, Temp);
      PickStep(near, i, Dew);
      TypesStep(near, i);
      precipTypes := precipTypes + [near[i].precip];
      if near[i].delta < tempTime && near[i].tmp < MISSING {
        tempTime := near[i].delta;
        nearestTemp := Some(near[i].tmp);
      }
      if near[i].delta < dewTime && near[i].dew < MISSING {
        dewTime := near[i].delta;
        nearestDew := Some(near[i].dew);
      }
    }
    assert near[..|near|] == near;
    if nearestTemp.None? || nearestDew.None? {
      return None;
    }
    var kinds := set x | x in precipTypes;
    KindsOfTypes(near);
    EmitByPick(s, near);
    var precipType := -1;
    if |kinds| > 1 {
      precipType := 1;
    } else {
      assert kinds == {Transition(kinds)};
      precipType :| precipType in kinds;
    }
    row := Some(Row(HourOf(s.time), nearestTemp.value, nearestDew.value, s.t925, s.td925, s.t850, s.td850, precipType));
  }

  /** The outcome for soundings i.. when the cursor stands at c, one entry per sounding. */
  ghost function Sweep(snd: seq<Sounding>, obs: seq<Obs>, i: nat, c: nat): (rows: seq<Option<Row>>)
    requires i <= |snd| && c <= |obs|
    ensures |rows| == |snd| - i
    decreases |snd| - i
  {
    if i == |snd| then []
    else
      var sc := ScanFrom(snd[i].time, obs, c);
      [Emit(snd[i], sc.window)] + Sweep(snd, obs, i + 1, sc.next)
  }

  /** better_combine's result: the rows of the sweep over the relabelled observations. */
  ghost function Joined(snd: seq<Sounding>, sfc: seq<Obs>): seq<Row> {
    Somes(Sweep(snd, Relabel(sfc), 0, 0))
  }

  /** One sounding of the sweep: the rows so far, followed by the rows of the
      rest of the sweep, gain this sounding's row (if any) at the seam. */
  lemma SweepStep(snd: seq<Sounding>, obs: seq<Obs>, i: nat, c: nat, near: seq<Near>, next: nat, row: Option<Row>, rows: seq<Row>)
    requires i < |snd| && c <= |obs|
    requires Scan(near, next) == ScanFrom(snd[i].time, obs, c) && row == Emit(snd[i], near)
    ensures next <= |obs|
    ensures rows + Somes(Sweep(snd, obs, i, c))
      == (rows + (if row.Some? then [row.value] else [])) + Somes(Sweep(snd, obs, i + 1, next))
  {
    var later := Sweep(snd, obs, i + 1, next);
    SweepHead(snd, obs, i, c);
    assert Sweep(snd, obs, i, c) == [row] + later;
    SomesSeam(rows, row, later);
  }

  lemma SomesSeam<T>(rows: seq<T>, x: Option<T>, xs: seq<Option<T>>)
    ensures rows + Somes([x] + xs) == (rows + (if x.Some? then [x.value] else [])) + Somes(xs)
  {
    SomesCons(x, xs);
    var added := if x.Some? then [x.value] else [];
    assert rows + (added + Somes(xs)) == (rows + added) + Somes(xs);
  }

  /** better_combine over soundings and observations already sorted by time. */
  method BetterCombine(snd: seq<Sounding>, sfc: seq<Obs>) returns (rows: seq<Row>)
    ensures rows == Joined(snd, sfc)
  {
    var obs := Relabel(sfc);
    rows := [];
    var startJ: nat := 0;
    for i := 0 to |snd|
      invariant startJ <= |obs|
      invariant Somes(Sweep(snd, obs, 0, 0)) == rows + Somes(Sweep(snd, obs, i, startJ))
    {
      var near, next := CollectNear(snd[i].time, obs, startJ);
      var row := PickNearest(snd[i], near);
      SweepStep(snd, obs, i, startJ, near, next, row, rows);
      rows := rows + if row.Some? then [row.value] else [];
      startJ := next;
    }
  }

  /** The reference join: every sounding checked against every observation. */
  ghost function Brute(snd: seq<Sounding>, obs: seq<Obs>): seq<Option<Row>> {
    seq(|snd|, i requires 0 <= i < |snd| => Emit(snd[i], Window(snd[i].time, obs, 0, |obs|)))
  }

  /** Consecutive soundings at least three hours apart. */
  predicate Spaced(snd: seq<Sounding>) {
    forall i :: 0 < i < |snd| ==> snd[i - 1].time + 3 * HOUR <= snd[i].time
  }

  /** When every observation before the cursor is more than an hour before t,
      the scan sees the whole window, and it leaves the cursor past only
      observations earlier than two hours after t. */
  lemma ScanSeesAll(t: int, obs: seq<Obs>, c: nat)
    requires SortedObs(obs) && c <= |obs|
    requires forall j :: 0 <= j < c ==> obs[j].time < t - NEAR_LIMIT
    ensures ScanFrom(t, obs, c).window == Window(t, obs, 0, |obs|)
    ensures forall j :: 0 <= j < ScanFrom(t, obs, c).next ==> obs[j].time < t + STOP_LIMIT
  {
    WindowEmpty(t, obs, 0, c);
    WindowSplit(t, obs, 0, c, |obs|);
    match FirstStop(t, obs, c)
    case Some(s) =>
      WindowSplit(t, obs, c, s, |obs|);
      WindowEmpty(t, obs, s, |obs|);
    case None =>
      var k := LastNear(t, obs, c, |obs|);
      if k < |obs| {
        assert forall j :: 0 <= j < k ==> obs[j].time <= obs[k].time;
      }
  }

  /** The sweep's first entry and the rest of it. */
  lemma SweepHead(snd: seq<Sounding>, obs: seq<Obs>, i: nat, c: nat)
    requires i < |snd| && c <= |obs|
    ensures var sc := ScanFrom(snd[i].time, obs, c);
      Sweep(snd, obs, i, c) == [Emit(snd[i], sc.window)] + Sweep(snd, obs, i + 1, sc.next)
  {
  }

  /** The reference join's first entry from sounding i on, and the rest of it. */
  lemma BruteHead(snd: seq<Sounding>, obs: seq<Obs>, i: nat)
    requires i < |snd|
    ensures Brute(snd, obs)[i..] == [Emit(snd[i], Window(snd[i].time, obs, 0, |obs|))] + Brute(snd, obs)[i + 1..]
  {
    SeqHead(Brute(snd, obs), i);
  }

  lemma SeqHead<T>(b: seq<T>, i: nat)
    requires i < |b|
    ensures b[i..] == [b[i]] + b[i + 1..]
  {
  }

  /** Observations the previous scan passed over lie more than an hour before the next sounding. */
  lemma CursorBehind(snd: seq<Sounding>, obs: seq<Obs>, i: nat, c: nat)
    requires Spaced(snd) && 0 < i < |snd| && c <= |obs|
    requires forall j :: 0 <= j < c ==> obs[j].time < snd[i - 1].time + STOP_LIMIT
    ensures forall j :: 0 <= j < c ==> obs[j].time < snd[i].time - NEAR_LIMIT
  {
    assert snd[i - 1].time + 3 * HOUR <= snd[i].time;
  }

  lemma {:induction false} SweepIsBruteFrom(snd: seq<Sounding>, obs: seq<Obs>, i: nat, c: nat)
    requires SortedObs(obs) && Spaced(snd) && i <= |snd| && c <= |obs|
    requires i == 0 ==> c == 0
    requires i > 0 ==> forall j :: 0 <= j < c ==> obs[j].time < snd[i - 1].time + STOP_LIMIT
    ensures Sweep(snd, obs, i, c) == Brute(snd, obs)[i..]
    decreases |snd| - i
  {
    if i < |snd| {
      var t := snd[i].time;
      if i > 0 {
        CursorBehind(snd, obs, i, c);
      }
      ScanSeesAll(t, obs, c);
      var sc := ScanFrom(t, obs, c);
      SweepIsBruteFrom(snd, obs, i + 1, sc.next);
      SweepHead(snd, obs, i, c);
      BruteHead(snd, obs, i);
    } else {
      assert Brute(snd, obs)[i..] == [];
    }
  }

  /** With both streams sorted and soundings at least three hours apart, the
      forward-only sweep gives exactly the rows of the exhaustive join. */
  lemma SweepIsBrute(snd: seq<Sounding>, sfc: seq<Obs>)
    requires SortedObs(sfc) && Spaced(snd)
    ensures Joined(snd, sfc) == Somes(Brute(snd, Relabel(sfc)))
  {
    RelabelKeepsOrder(sfc);
    SweepIsBruteFrom(snd, Relabel(sfc), 0, 0);
    assert Brute(snd, Relabel(sfc))[0..] == Brute(snd, Relabel(sfc));
  }

  /** Without that spacing the sweep can miss observations: for soundings at
      minutes 0 and 179, the observation at minute 119 is passed over by the
      first scan and lies before the cursor for the second, so the second
      sounding finds only the missing temperature at minute 120 and yields no
      row, while the exhaustive join yields one. */
  lemma SpacingMatters()
    ensures
      var snd := [Sounding(0, 0, 0, 0, 0), Sounding(179, 0, 0, 0, 0)];
      var obs := [Obs(119, 10, 5, 0), Obs(120, 9999, 5, 0)];
      SortedSoundings(snd) && SortedObs(obs) && !Spaced(snd)
      && Sweep(snd, obs, 0, 0)[1].None? && Brute(snd, obs)[1].Some?
  {
    var snd := [Sounding(0, 0, 0, 0, 0), Sounding(179, 0, 0, 0, 0)];
    var obs := [Obs(119, 10, 5, 0), Obs(120, 9999, 5, 0)];
    ExampleOrder(snd, obs);
    FirstScanStopsAtMinute120(obs);
    SecondScanSeesOnlyMissing(snd, obs);
    ExhaustiveSecondWindow(snd, obs);
  }

  lemma ExampleOrder(snd: seq<Sounding>, obs: seq<Obs>)
    requires snd == [Sounding(0, 0, 0, 0, 0), Sounding(179, 0, 0, 0, 0)]
    requires obs == [Obs(119, 10, 5, 0), Obs(120, 9999, 5, 0)]
    ensures SortedSoundings(snd) && SortedObs(obs) && !Spaced(snd)
  {
    assert snd[1 - 1].time + 3 * HOUR > snd[1].time;
  }

  lemma FirstScanStopsAtMinute120(obs: seq<Obs>)
    requires obs == [Obs(119, 10, 5, 0), Obs(120, 9999, 5, 0)]
    ensures ScanFrom(0, obs, 0) == Scan([], 1)
  {
    assert FirstStop(0, obs, 0) == Some(1);
    assert Window(0, obs, 0, 1) == [];
  }

  lemma SecondScanSeesOnlyMissing(snd: seq<Sounding>, obs: seq<Obs>)
    requires snd == [Sounding(0, 0, 0, 0, 0), Sounding(179, 0, 0, 0, 0)]
    requires obs == [Obs(119, 10, 5, 0), Obs(120, 9999, 5, 0)]
    requires ScanFrom(0, obs, 0) == Scan([], 1)
    ensures Sweep(snd, obs, 0, 0)[1].None?
  {
    assert FirstStop(179, obs, 1) == None;
    var late := Near(59, 9999, 5, 0);
    assert Window(179, obs, 1, 1) == [];
    assert Window(179, obs, 1, 2) == [late];
    assert Nearest([late], Temp) == None;
    assert Sweep(snd, obs, 0, 0)[1] == Sweep(snd, obs, 1, 1)[0] == Emit(snd[1], [late]);
  }

  lemma ExhaustiveSecondWindow(snd: seq<Sounding>, obs: seq<Obs>)
    requires snd == [Sounding(0, 0, 0, 0, 0), Sounding(179, 0, 0, 0, 0)]
    requires obs == [Obs(119, 10, 5, 0), Obs(120, 9999, 5, 0)]
    ensures Brute(snd, obs)[1].Some?
  {
    var w := [Near(60, 10, 5, 0), Near(59, 9999, 5, 0)];
    SecondWindowWhole(obs);
    SecondWindowNearest(w);
    assert Brute(snd, obs)[1] == Emit(snd[1], w);
  }

  /** Checked against every observation, the sounding at minute 179 sees both. */
  lemma SecondWindowWhole(obs: seq<Obs>)
    requires obs == [Obs(119, 10, 5, 0), Obs(120, 9999, 5, 0)]
    ensures Window(179, obs, 0, 2) == [Near(60, 10, 5, 0), Near(59, 9999, 5, 0)]
  {
    assert Window(179, obs, 0, 1) == [Near(60, 10, 5, 0)];
  }

  /** The earlier observation supplies the temperature, the later the dewpoint. */
  lemma SecondWindowNearest(w: seq<Near>)
    requires w == [Near(60, 10, 5, 0), Near(59, 9999, 5, 0)]
    ensures Nearest(w, Temp) == Some(0) && Nearest(w, Dew) == Some(1)
  {
    assert w[..1] == [w[0]];
    assert Nearest([w[0]], Temp) == Some(0);
    assert Nearest([w[0]], Dew) == Some(0);
  }

  /** A row carries its sounding's hour and upper-air values. */
  predicate Carries(s: Sounding, r: Row) {
    r.hour == HourOf(s.time) && r.t925 == s.t925 && r.td925 == s.td925 && r.t850 == s.t850 && r.td850 == s.td850
  }

  lemma EmitCarries(s: Sounding, w: seq<Near>)
    ensures Emit(s, w).Some? ==> Carries(s, Emit(s, w).value)
  {
  }

  lemma {:induction false} SweepRows(snd: seq<Sounding>, obs: seq<Obs>, i: nat, c: nat)
    requires i <= |snd| && c <= |obs|
    ensures forall k :: 0 <= k < |Sweep(snd, obs, i, c)| && Sweep(snd, obs, i, c)[k].Some? ==>
      Carries(snd[i + k], Sweep(snd, obs, i, c)[k].value)
    decreases |snd| - i
  {
    if i < |snd| {
      var sc := ScanFrom(snd[i].time, obs, c);
      var rest := Sweep(snd, obs, i + 1, sc.next);
      SweepRows(snd, obs, i + 1, sc.next);
      SweepHead(snd, obs, i, c);
      EmitCarries(snd[i], sc.window);
      var sw := Sweep(snd, obs, i, c);
      forall k | 0 <= k < |sw| && sw[k].Some? ensures Carries(snd[i + k], sw[k].value) {
        if k > 0 {
          assert sw[k] == rest[k - 1] && (i + 1) + (k - 1) == i + k;
          assert Carries(snd[(i + 1) + (k - 1)], rest[k - 1].value);
        } else {
          assert sw[k] == Emit(snd[i], sc.window);
        }
      }
    }
  }

  /** At most one row per sounding, each carrying the hour and upper-air
      values of one sounding. */
  lemma JoinedRows(snd: seq<Sounding>, sfc: seq<Obs>)
    ensures |Joined(snd, sfc)| <= |snd|
    ensures forall r :: r in Joined(snd, sfc) ==> exists i :: 0 <= i < |snd| && Carries(snd[i], r)
  {
    var sw := Sweep(snd, Relabel(sfc), 0, 0);
    SweepRows(snd, Relabel(sfc), 0, 0);
    forall r | r in Joined(snd, sfc) ensures exists i :: 0 <= i < |snd| && Carries(snd[i], r) {
      var k :| 0 <= k < |sw| && sw[k] == Some(r);
      assert Carries(snd[k], r);
    }
  }

  lemma {:induction false} SomesOrdered(xs: seq<Option<Row>>)
    requires forall a, b :: 0 <= a < b < |xs| && xs[a].Some? && xs[b].Some? ==> xs[a].value.hour <= xs[b].value.hour
    ensures forall a, b :: 0 <= a < b < |Somes(xs)| ==> Somes(xs)[a].hour <= Somes(xs)[b].hour
    decreases |xs|
  {
    if xs != [] {
      var rest := xs[1..];
      assert forall a, b :: 0 <= a < b < |rest| ==> rest[a] == xs[a + 1] && rest[b] == xs[b + 1];
      SomesOrdered(rest);
      if xs[0].Some? {
        forall x | x in Somes(rest) ensures xs[0].value.hour <= x.hour {
          var m :| 0 <= m < |rest| && rest[m] == Some(x);
          assert xs[m + 1] == Some(x);
        }
      }
    }
  }

  lemma HourOfMonotone(a: int, b: int)
    requires a <= b
    ensures HourOf(a) <= HourOf(b)
  {
  }

  /** Rows come out in sounding order: their hours never decrease. */
  lemma JoinedInOrder(snd: seq<Sounding>, sfc: seq<Obs>)
    requires SortedSoundings(snd)
    ensures forall a, b :: 0 <= a < b < |Joined(snd, sfc)| ==> Joined(snd, sfc)[a].hour <= Joined(snd, sfc)[b].hour
  {
    var sw := Sweep(snd, Relabel(sfc), 0, 0);
    SweepRows(snd, Relabel(sfc), 0, 0);
    forall a, b | 0 <= a < b < |sw| && sw[a].Some? && sw[b].Some? ensures sw[a].value.hour <= sw[b].value.hour {
      HourOfMonotone(snd[a].time, snd[b].time);
    }
    SomesOrdered(sw);
  }

  /** A window drawn from observations labelled 0 or 1 yields a label 0 or 1. */
  lemma EmitLabel(s: Sounding, w: seq<Near>)
    requires forall k :: 0 <= k < |w| ==> 0 <= w[k].precip <= 1
    ensures Emit(s, w).Some? ==> Emit(s, w).value.precip in {0, 1}
  {
    EmitByPick(s, w);
    if Emit(s, w).Some? {
      assert Kinds(w) <= {0, 1} by {
        forall x | x in Kinds(w) ensures x in {0, 1} {
          var k :| 0 <= k < |w| && w[k].precip == x;
        }
      }
      if |Kinds(w)| <= 1 {
        assert Emit(s, w).value.precip in Kinds(w);
      }
    }
  }

  /** A scan over observations labelled 0 or 1 collects only such labels. */
  lemma ScanLabels(t: int, obs: seq<Obs>, c: nat)
    requires c <= |obs| && LabelsIn(obs, 0, 1)
    ensures var w := ScanFrom(t, obs, c).window;
      forall k :: 0 <= k < |w| ==> 0 <= w[k].precip <= 1
  {
    var w := ScanFrom(t, obs, c).window;
    var hi := if FirstStop(t, obs, c).Some? then FirstStop(t, obs, c).value else |obs|;
    WindowMembers(t, obs, c, hi);
    forall k | 0 <= k < |w| ensures 0 <= w[k].precip <= 1 {
      assert w[k] in w;
    }
  }

  lemma {:induction false} SweepLabels(snd: seq<Sounding>, obs: seq<Obs>, i: nat, c: nat)
    requires i <= |snd| && c <= |obs| && LabelsIn(obs, 0, 1)
    ensures forall k :: 0 <= k < |Sweep(snd, obs, i, c)| && Sweep(snd, obs, i, c)[k].Some? ==>
      Sweep(snd, obs, i, c)[k].value.precip in {0, 1}
    decreases |snd| - i
  {
    if i < |snd| {
      var sc := ScanFrom(snd[i].time, obs, c);
      var rest := Sweep(snd, obs, i + 1, sc.next);
      SweepLabels(snd, obs, i + 1, sc.next);
      SweepHead(snd, obs, i, c);
      ScanLabels(snd[i].time, obs, c);
      EmitLabel(snd[i], sc.window);
      var sw := Sweep(snd, obs, i, c);
      forall k | 0 <= k < |sw| && sw[k].Some? ensures sw[k].value.precip in {0, 1} {
        if k > 0 {
          assert sw[k] == rest[k - 1];
        }
      }
    }
  }

  /** Every emitted label is binary: 0 for rain, 1 for mixed or frozen. */
  lemma JoinedLabelsBinary(snd: seq<Sounding>, sfc: seq<Obs>)
    requires LabelsIn(sfc, 0, 2)
    ensures forall r :: r in Joined(snd, sfc) ==> r.precip == 0 || r.precip == 1
  {
    var sw := Sweep(snd, Relabel(sfc), 0, 0);
    SweepLabels(snd, Relabel(sfc), 0, 0);
    forall r | r in Joined(snd, sfc) ensures r.precip == 0 || r.precip == 1 {
      var k :| 0 <= k < |sw| && sw[k] == Some(r);
    }
  }
}
