/** Decoding of the upper-air sounding archive (read_sounding_obs.py):
    grouping the archive's lines into soundings at the station marker,
    slicing data lines at fixed offsets, parsing and filtering the levels,
    and reducing each sounding to temperature and dewpoint at 925 and 850 hPa.
    Values keep the archive's integer units: pressure in hundredths of a hPa
    (the source divides by 100), temperature, relative humidity and dewpoint
    depression in tenths (the source divides by 10), height in metres. */
module SoundingObs {
  import opened Common
  import opened Text

  /** The token that marks the header line of each sounding. */
  const STATION := "#USM00072645"

  /** The nine fixed-width fields of a data line, as text. */
  datatype DataLine = DataLine(
    rowType: string, elapsed: string, pressure: string, height: string, temp: string,
    rh: string, depression: string, windDir: string, windSpeed: string)

  /** Slices a data line at offsets 0, 2, 8, 16, 22, 28, 33, 39, 45 and 51. */
  function SliceLine(line: string): (d: DataLine)
    ensures |line| >= 51 ==>
      |d.rowType| == 2 && |d.elapsed| == 6 && |d.pressure| == 8 && |d.height| == 6 && |d.temp| == 6
      && |d.rh| == 5 && |d.depression| == 6 && |d.windDir| == 6 && |d.windSpeed| == 6
  {
    DataLine(
      Slice(line, 0, 2), Slice(line, 2, 8), Slice(line, 8, 16), Slice(line, 16, 22),
      Slice(line, 22, 28), Slice(line, 28, 33), Slice(line, 33, 39), Slice(line, 39, 45),
      Slice(line, 45, 51))
  }

  /** The fields laid end to end again. */
  function Rejoin(d: DataLine): string {
    d.rowType + d.elapsed + d.pressure + d.height + d.temp + d.rh + d.depression + d.windDir + d.windSpeed
  }

  function Min(a: nat, b: nat): nat { if a <= b then a else b }

  lemma SliceAdjacent(s: string, a: nat, b: nat, c: nat)
    requires a <= b <= c
    ensures Slice(s, a, b) + Slice(s, b, c) == Slice(s, a, c)
  {
    var l, r, w := Slice(s, a, b), Slice(s, b, c), Slice(s, a, c);
    assert |l + r| == |w|;
    forall i | 0 <= i < |w| ensures (l + r)[i] == w[i] {
      if i < |l| {
      } else {
        assert (l + r)[i] == r[i - |l|];
      }
    }
  }

  /** The nine fields tile the first 51 characters of the line: nothing is
      skipped or read twice, and a longer line's tail (the newline) is ignored. */
  lemma SliceLineTiles(line: string)
    ensures Rejoin(SliceLine(line)) == line[..Min(|line|, 51)]
  {
    SliceAdjacent(line, 0, 2, 8);
    SliceAdjacent(line, 0, 8, 16);
    SliceAdjacent(line, 0, 16, 22);
    SliceAdjacent(line, 0, 22, 28);
    SliceAdjacent(line, 0, 28, 33);
    SliceAdjacent(line, 0, 33, 39);
    SliceAdjacent(line, 0, 39, 45);
    SliceAdjacent(line, 0, 45, 51);
  }

  /** The first element of a group: a marker line's year, month, day and hour
      tokens, or, for lines that come before any marker, the first data line. */
  datatype Head = Stamp(year: string, month: string, day: string, hour: string) | Stray(first: DataLine)

  /** One group of read_sounding's result: its first element and the data lines after it. */
  datatype RawGroup = RawGroup(head: Head, levels: seq<DataLine>)

  /** read_sounding's state: the groups flushed so far and the group being
      filled (None while the source's list is still empty). */
  datatype Reader = Reader(done: seq<RawGroup>, open: Option<RawGroup>)

  predicate IsMarker(line: string) { STATION in Words(line) }

  /** One line of read_sounding. A marker line flushes a non-empty group and
      starts a new one from tokens 1-4 (IndexError if there are fewer than
      five tokens); any other line is sliced and appended to the open group. */
  function Step(st: Reader, line: string): Result<Reader> {
    var items := Words(line);
    if STATION in items then
      if |items| < 5 then Err(IndexError)
      else
        var done := st.done + (if st.open.Some? then [st.open.value] else []);
        Ok(Reader(done, Some(RawGroup(Stamp(items[1], items[2], items[3], items[4]), []))))
    else
      var d := SliceLine(line);
      match st.open
      case Some(g) => Ok(Reader(st.done, Some(RawGroup(g.head, g.levels + [d]))))
      case None => Ok(Reader(st.done, Some(RawGroup(Stray(d), []))))
  }

  /** The reader's state after the given lines. */
  function Read(lines: seq<string>): Result<Reader>
    decreases |lines|
  {
    if lines == [] then Ok(Reader([], None))
    else
      var st :- Read(lines[..|lines| - 1]);
      Step(st, lines[|lines| - 1])
  }

  /** read_sounding: only the flushed groups are returned. */
  function Groups(lines: seq<string>): Result<seq<RawGroup>> {
    var st :- Read(lines);
    Ok(st.done)
  }

  method ReadSounding(lines: seq<string>) returns (r: Result<seq<RawGroup>>)
    ensures r == Groups(lines)
  {
    var allSoundings: seq<RawGroup> := [];
    var sounding: Option<RawGroup> := None;
    for i := 0 to |lines|
      invariant Read(lines[..i]) == Ok(Reader(allSoundings, sounding))
    {
      assert lines[..i + 1][..i] == lines[..i];
      var line := lines[i];
      assert Read(lines[..i + 1]) == Step(Reader(allSoundings, sounding), line);
      var items := Words(line);
      if STATION in items {
        if sounding.Some? {
          allSoundings := allSoundings + [sounding.value];
        } else {
          assert allSoundings + [] == allSoundings;
        }
        if |items| < 5 {
          assert Read(lines[..i + 1]) == Err(IndexError);
          ReadFailureSticks(lines, i + 1);
          return Err(IndexError);
        }
        sounding := Some(RawGroup(Stamp(items[1], items[2], items[3], items[4]), []));
      } else {
        var d := SliceLine(line);
        if sounding.Some? {
          sounding := Some(RawGroup(sounding.value.head, sounding.value.levels + [d]));
        } else {
          sounding := Some(RawGroup(Stray(d), []));
        }
      }
    }
    assert lines[..|lines|] == lines;
    r := Ok(allSoundings);
  }

  /** Once a prefix of the archive raises, the whole archive does. */
  lemma {:induction false} ReadFailureSticks(lines: seq<string>, n: nat)
    requires n <= |lines| && Read(lines[..n]).Err?
    ensures Read(lines).Err? && Read(lines).error == Read(lines[..n]).error
    decreases |lines| - n
  {
    if n < |lines| {
      assert lines[..n + 1][..n] == lines[..n];
      ReadFailureSticks(lines, n + 1);
    } else {
      assert lines[..n] == lines;
    }
  }

  function CountMarkers(lines: seq<string>): nat
    decreases |lines|
  {
    if lines == [] then 0
    else CountMarkers(lines[..|lines| - 1]) + (if IsMarker(lines[|lines| - 1]) then 1 else 0)
  }

  /** How many groups the lines start: one per marker, plus one for data
      lines that come before the first marker. */
  function Started(lines: seq<string>): nat {
    CountMarkers(lines) + (if lines != [] && !IsMarker(lines[0]) then 1 else 0)
  }

  lemma {:induction false} FirstMarkerCounted(lines: seq<string>)
    requires lines != [] && IsMarker(lines[0])
    ensures CountMarkers(lines) >= 1
    decreases |lines|
  {
    if |lines| > 1 {
      var pre := lines[..|lines| - 1];
      assert pre[0] == lines[0];
      FirstMarkerCounted(pre);
    }
  }

  /** Every group started is returned except the last one: the group still
      open at the end of the file is never flushed. */
  lemma {:induction false} GroupCount(lines: seq<string>)
    requires Read(lines).Ok?
    ensures Read(lines).value.open.Some? <==> lines != []
    ensures |Read(lines).value.done| == if Started(lines) == 0 then 0 else Started(lines) - 1
    decreases |lines|
  {
    if lines != [] {
      var pre := lines[..|lines| - 1];
      var line := lines[|lines| - 1];
      assert Read(pre).Ok?;
      GroupCount(pre);
      if pre != [] {
        assert pre[0] == lines[0];
        if IsMarker(pre[0]) {
          FirstMarkerCounted(pre);
        }
      }
    }
  }

  /** A file holding a single sounding (its marker line, then data lines)
      yields no sounding at all: the group is still open when the file ends. */
  lemma SingleSoundingLost(marker: string, data: seq<string>)
    requires STATION in Words(marker) && |Words(marker)| >= 5
    requires forall i :: 0 <= i < |data| ==> !IsMarker(data[i])
    ensures Groups([marker] + data) == Ok([])
  {
    var lines := [marker] + data;
    assert lines[0] == marker;
    ReadOk(lines, |lines|);
    assert lines[..|lines|] == lines;
    GroupCount(lines);
    MarkersAfterFirst(lines);
  }

  lemma {:induction false} ReadOk(lines: seq<string>, n: nat)
    requires 1 <= |lines| && IsMarker(lines[0]) && |Words(lines[0])| >= 5
    requires forall i :: 1 <= i < |lines| ==> !IsMarker(lines[i])
    requires n <= |lines|
    ensures Read(lines[..n]).Ok?
    decreases n
  {
    if n > 0 {
      assert lines[..n][..n - 1] == lines[..n - 1];
      ReadOk(lines, n - 1);
    }
  }

  lemma {:induction false} MarkersAfterFirst(lines: seq<string>)
    requires forall i :: 1 <= i < |lines| ==> !IsMarker(lines[i])
    ensures CountMarkers(lines) == if lines != [] && IsMarker(lines[0]) then 1 else 0
    decreases |lines|
  {
    if |lines| > 1 {
      var pre := lines[..|lines| - 1];
      assert pre[0] == lines[0];
      MarkersAfterFirst(pre);
    }
  }

  /** read_sounding as evidently intended: the group still open at the end of
      the file is returned as well. */
  function AllGroups(lines: seq<string>): Result<seq<RawGroup>> {
    var st :- Read(lines);
    Ok(Flush(st))
  }

  /** The flushed groups followed by the open one. */
  function Flush(st: Reader): seq<RawGroup> {
    st.done + (if st.open.Some? then [st.open.value] else [])
  }

  /** Every group the file starts is returned, and read_sounding's result is
      this one without its last group. */
  lemma AllGroupsCount(lines: seq<string>)
    requires Read(lines).Ok?
    ensures |AllGroups(lines).value| == Started(lines)
    ensures lines != [] ==> Groups(lines).value == AllGroups(lines).value[..|AllGroups(lines).value| - 1]
  {
    GroupCount(lines);
    var st := Read(lines).value;
    if lines != [] {
      if IsMarker(lines[0]) {
        FirstMarkerCounted(lines);
      }
      var all := st.done + [st.open.value];
      assert AllGroups(lines).value == all && Groups(lines).value == st.done;
      assert all[..|all| - 1] == st.done;
    }
  }

  predicate NoMarkers(lines: seq<string>) {
    forall i :: 0 <= i < |lines| ==> !IsMarker(lines[i])
  }

  /** The group one sounding makes: its marker line's tokens 1-4 as the head,
      then each following data line sliced, in order. */
  function SoundingGroup(marker: string, data: seq<string>): RawGroup
    requires |Words(marker)| >= 5
  {
    var items := Words(marker);
    RawGroup(Stamp(items[1], items[2], items[3], items[4]), SliceLines(data))
  }

  /** Each line sliced, in order. */
  function SliceLines(data: seq<string>): (ds: seq<DataLine>)
    ensures |ds| == |data|
  {
    seq(|data|, i requires 0 <= i < |data| => SliceLine(data[i]))
  }

  lemma SliceLinesSnoc(data: seq<string>)
    requires data != []
    ensures SliceLines(data) == SliceLines(data[..|data| - 1]) + [SliceLine(data[|data| - 1])]
  {
  }

  lemma SnocSplit(head: seq<string>, data: seq<string>)
    requires data != []
    ensures head + data == (head + data[..|data| - 1]) + [data[|data| - 1]]
  {
    assert data == data[..|data| - 1] + [data[|data| - 1]];
  }

  lemma ReadSnoc(xs: seq<string>, line: string)
    requires Read(xs).Ok?
    ensures Read(xs + [line]) == Step(Read(xs).value, line)
  {
    assert (xs + [line])[..|xs|] == xs;
  }

  lemma StepMarker(st: Reader, marker: string)
    requires IsMarker(marker) && |Words(marker)| >= 5
    ensures Step(st, marker) == Ok(Reader(Flush(st), Some(SoundingGroup(marker, []))))
  {
    assert SoundingGroup(marker, []).levels == [];
  }

  lemma StepData(st: Reader, line: string)
    requires !IsMarker(line) && st.open.Some?
    ensures Step(st, line) == Ok(Reader(st.done, Some(RawGroup(st.open.value.head, st.open.value.levels + [SliceLine(line)]))))
  {
  }

  lemma {:induction false} ReadThroughSounding(lines: seq<string>, marker: string, data: seq<string>)
    requires Read(lines).Ok? && IsMarker(marker) && |Words(marker)| >= 5 && NoMarkers(data)
    ensures Read(lines + [marker] + data) == Ok(Reader(Flush(Read(lines).value), Some(SoundingGroup(marker, data))))
    decreases |data|
  {
    var head := lines + [marker];
    if data == [] {
      assert head + data == head;
      ReadSnoc(lines, marker);
      StepMarker(Read(lines).value, marker);
    } else {
      var pre := data[..|data| - 1];
      var last := data[|data| - 1];
      ReadThroughSounding(lines, marker, pre);
      var xs := head + pre;
      SnocSplit(head, data);
      ReadSnoc(xs, last);
      StepData(Read(xs).value, last);
      SliceLinesSnoc(data);
    }
  }

  /** A sounding (a marker line with at least five tokens, then lines without
      the marker) appended to readable text: the corrected reader gains
      exactly that sounding's group, while read_sounding returns only the
      groups before it. */
  lemma AppendSounding(lines: seq<string>, marker: string, data: seq<string>)
    requires Read(lines).Ok? && IsMarker(marker) && |Words(marker)| >= 5 && NoMarkers(data)
    ensures AllGroups(lines + [marker] + data) == Ok(AllGroups(lines).value + [SoundingGroup(marker, data)])
    ensures Groups(lines + [marker] + data) == AllGroups(lines)
  {
    ReadThroughSounding(lines, marker, data);
    var st := Read(lines + [marker] + data).value;
    assert Flush(st) == AllGroups(lines).value + [SoundingGroup(marker, data)];
  }

  /** A marker line with fewer than five tokens raises IndexError, whatever follows it. */
  lemma ShortMarkerRaises(lines: seq<string>, marker: string, rest: seq<string>)
    requires Read(lines).Ok? && IsMarker(marker) && |Words(marker)| < 5
    ensures Groups(lines + [marker] + rest) == Err(IndexError)
  {
    var xs := lines + [marker] + rest;
    var n := |lines| + 1;
    assert xs[..n] == lines + [marker];
    ReadSnoc(lines, marker);
    ReadFailureSticks(xs, n);
  }

  /** A decoded level, in the archive's integer units. */
  datatype Level = Level(pressure: int, height: int, temp: int, rh: int, depression: int)

  /** A sounding after filter: its date text and its kept levels in file order. */
  datatype Profile = Profile(date: string, levels: seq<Level>)

  /** Pressure sentinel (-99.99 hPa) and the cutoff (600 hPa), in hundredths of a hPa. */
  const MISSING_PRESSURE := -9999
  const CUTOFF := 60000

  /** The date text `Y-M-DTH:00:00` built from the first element of a group. */
  function DateOf(h: Head): string {
    match h
    case Stamp(y, m, d, hr) => y + "-" + m + "-" + d + "T" + hr + ":00:00"
    case Stray(l) => l.rowType + "-" + l.elapsed + "-" + l.pressure + "T" + l.height + ":00:00"
  }

  /** Parses pressure, height, temperature, humidity and depression, each with
      the one-flag retry; the first field that still fails raises ValueError. */
  function DecodeLevel(d: DataLine): (r: Result<Level>)
    ensures r.Err? ==> r.error == ValueError
  {
    var p :- ParseFlagged(d.pressure);
    var h :- ParseFlagged(d.height);
    var t :- ParseFlagged(d.temp);
    var rh :- ParseFlagged(d.rh);
    var dp :- ParseFlagged(d.depression);
    Ok(Level(p, h, t, rh, dp))
  }

  /** Levels at or above 600 hPa, and the missing-pressure sentinel, are dropped. */
  predicate Discarded(l: Level) {
    l.pressure == MISSING_PRESSURE || l.pressure <= CUTOFF
  }

  /** Each data line of a group, decoded. */
  function Decoded(ds: seq<DataLine>): seq<Result<Level>> {
    seq(|ds|, i requires 0 <= i < |ds| => DecodeLevel(ds[i]))
  }

  /** The loop of filter over one group's decoded lines: the first failure
      is raised, otherwise the levels below 600 hPa are kept in file order. */
  function Keep(rs: seq<Result<Level>>): (r: Result<seq<Level>>)
    ensures r.Err? ==> exists i :: 0 <= i < |rs| && rs[i] == Err(r.error)
    ensures r.Ok? ==> |r.value| <= |rs| && forall l :: l in r.value ==> l.pressure > CUTOFF && l.pressure != MISSING_PRESSURE
    decreases |rs|
  {
    if rs == [] then Ok([])
    else
      var pre := rs[..|rs| - 1];
      var prev :- Keep(pre);
      var l :- rs[|rs| - 1];
      Ok(if Discarded(l) then prev else prev + [l])
  }

  /** The level each decoded line contributes: None for a failure or a discarded level. */
  function Selected(rs: seq<Result<Level>>): (s: seq<Option<Level>>)
    ensures |s| == |rs|
  {
    seq(|rs|, i requires 0 <= i < |rs| => if rs[i].Ok? && !Discarded(rs[i].value) then Some(rs[i].value) else None)
  }

  /** A group decodes exactly when every one of its lines does, and then the
      decoded levels below 600 hPa are kept, each once and in file order, and
      nothing else is. */
  lemma {:induction false} KeepComplete(rs: seq<Result<Level>>)
    ensures Keep(rs).Ok? <==> forall i :: 0 <= i < |rs| ==> rs[i].Ok?
    ensures Keep(rs).Ok? ==> Keep(rs).value == Somes(Selected(rs))
    ensures Keep(rs).Ok? ==> forall l :: l in Keep(rs).value <==> Ok(l) in rs && !Discarded(l)
    decreases |rs|
  {
    if rs != [] {
      var pre := rs[..|rs| - 1];
      KeepComplete(pre);
      assert rs == pre + [rs[|rs| - 1]];
      assert Selected(rs) == Selected(pre) + [Selected(rs)[|rs| - 1]];
      SomesSnoc(Selected(pre), Selected(rs)[|rs| - 1]);
    }
  }

  /** Once a line fails to parse, the whole group fails with that error. */
  lemma {:induction false} KeepFailureSticks(rs: seq<Result<Level>>, n: nat)
    requires n <= |rs| && Keep(rs[..n]).Err?
    ensures Keep(rs) == Keep(rs[..n])
    decreases |rs| - n
  {
    if n < |rs| {
      assert rs[..n + 1][..n] == rs[..n];
      KeepFailureSticks(rs, n + 1);
    } else {
      assert rs[..n] == rs;
    }
  }

  /** The levels filter keeps for one group. */
  function KeptLevels(ds: seq<DataLine>): Result<seq<Level>> {
    Keep(Decoded(ds))
  }

  function FilterGroup(g: RawGroup): Result<Profile> {
    var levels :- KeptLevels(g.levels);
    Ok(Profile(DateOf(g.head), levels))
  }

  /** All the values, or the first error, of a sequence of results. */
  function Collect<T>(rs: seq<Result<T>>): (r: Result<seq<T>>)
    ensures r.Err? ==> exists i :: 0 <= i < |rs| && rs[i] == Err(r.error)
    ensures r.Ok? ==> |r.value| == |rs|
    decreases |rs|
  {
    if rs == [] then Ok([])
    else
      var prev :- Collect(rs[..|rs| - 1]);
      var x :- rs[|rs| - 1];
      Ok(prev + [x])
  }

  /** Collect succeeds exactly when every result does, and then keeps them in order. */
  lemma {:induction false} CollectComplete<T>(rs: seq<Result<T>>)
    ensures Collect(rs).Ok? <==> forall i :: 0 <= i < |rs| ==> rs[i].Ok?
    ensures Collect(rs).Ok? ==> forall i :: 0 <= i < |rs| ==> Collect(rs).value[i] == rs[i].value
    decreases |rs|
  {
    if rs != [] {
      var pre := rs[..|rs| - 1];
      CollectComplete(pre);
      assert forall i :: 0 <= i < |pre| ==> pre[i] == rs[i];
    }
  }

  /** Once one result is an error, Collect returns the first such error. */
  lemma {:induction false} CollectFailureSticks<T>(rs: seq<Result<T>>, n: nat)
    requires n <= |rs| && Collect(rs[..n]).Err?
    ensures Collect(rs) == Collect(rs[..n])
    decreases |rs| - n
  {
    if n < |rs| {
      assert rs[..n + 1][..n] == rs[..n];
      CollectFailureSticks(rs, n + 1);
    } else {
      assert rs[..n] == rs;
    }
  }

  /** Each group, filtered. */
  function FilteredGroups(gs: seq<RawGroup>): seq<Result<Profile>> {
    seq(|gs|, i requires 0 <= i < |gs| => FilterGroup(gs[i]))
  }

  /** filter over all groups: one profile per group, in order, or the first
      ValueError any group raises. */
  function FilterAll(gs: seq<RawGroup>): Result<seq<Profile>> {
    Collect(FilteredGroups(gs))
  }

  /** One more decoded line: its failure ends the fold, a kept level is appended. */
  lemma KeepStep(rs: seq<Result<Level>>, i: nat)
    requires i < |rs| && Keep(rs[..i]).Ok?
    ensures Keep(rs[..i + 1]) == match rs[i]
      case Err(e) => Err(e)
      case Ok(l) => Ok(if Discarded(l) then Keep(rs[..i]).value else Keep(rs[..i]).value + [l])
  {
    assert rs[..i + 1][..i] == rs[..i];
  }

  /** The inner loop of filter: decodes the levels of one group, keeping those below 600 hPa. */
  method DecodeLevels(levels: seq<DataLine>) returns (r: Result<seq<Level>>)
    ensures r == KeptLevels(levels)
  {
    ghost var rs := Decoded(levels);
    var kept: seq<Level> := [];
    for i := 0 to |levels|
      invariant Keep(rs[..i]) == Ok(kept)
    {
      var level := DecodeLevel(levels[i]);
      assert level == rs[i];
      KeepStep(rs, i);
      if level.Err? {
        KeepFailureSticks(rs, i + 1);
        return Err(level.error);
      }
      if !(level.value.pressure == MISSING_PRESSURE || level.value.pressure <= CUTOFF) {
        kept := kept + [level.value];
      }
    }
    assert rs[..|levels|] == rs;
    r := Ok(kept);
  }

  /** filter: one profile per group, in order. */
  method Filter(soundings: seq<RawGroup>) returns (r: Result<seq<Profile>>)
    ensures r == FilterAll(soundings)
  {
    ghost var fs := FilteredGroups(soundings);
    var toWrite: seq<Profile> := [];
    for g := 0 to |soundings|
      invariant Collect(fs[..g]) == Ok(toWrite)
    {
      assert fs[..g + 1][..g] == fs[..g];
      var levels := DecodeLevels(soundings[g].levels);
      if levels.Err? {
        assert fs[g] == Err(levels.error);
        CollectFailureSticks(fs, g + 1);
        return Err(levels.error);
      }
      toWrite := toWrite + [Profile(DateOf(soundings[g].head), levels.value)];
    }
    assert fs[..|soundings|] == fs;
    r := Ok(toWrite);
  }

  /** The soundings of a file, read with the corrected reader and filtered. */
  function SoundingProfiles(lines: seq<string>): Result<seq<Profile>> {
    var gs :- AllGroups(lines);
    FilterAll(gs)
  }

  /** With the corrected reader every sounding the file starts reaches filter:
      a file that reads and filters without error yields one profile per sounding. */
  lemma ProfilesPerSounding(lines: seq<string>)
    requires SoundingProfiles(lines).Ok?
    ensures |SoundingProfiles(lines).value| == Started(lines)
  {
    AllGroupsCount(lines);
  }

  /** Target levels (925 and 850 hPa) and the tolerance (20 hPa), in hundredths of a hPa. */
  const TARGET_925 := 92500
  const TARGET_850 := 85000
  const TOLERANCE := 2000
  /** Lower limits for a usable value: -200 °C and -200 °C depression, -10 % humidity, in tenths. */
  const MIN_TEMP := -2000
  const MIN_DEPRESSION := -2000
  const MIN_RH := -100

  /** A level may serve a target when it lies strictly within the tolerance,
      has a temperature, and has a depression or else a humidity. */
  predicate Candidate(l: Level, target: int) {
    Dist(l.pressure, target) < TOLERANCE && l.temp > MIN_TEMP
    && (l.depression > MIN_DEPRESSION || l.rh > MIN_RH)
  }

  /** The dewpoint of a candidate: temperature minus depression when the
      depression is usable, otherwise `dewCal(temperature, humidity)`, which
      stands for the source's dewpoint_cal followed by rounding to tenths. */
  function DewOf(l: Level, dewCal: (int, int) -> int): int {
    if l.depression > MIN_DEPRESSION then l.temp - l.depression else dewCal(l.temp, l.rh)
  }

  /** Level k is a candidate, no candidate is nearer the target, and every
      earlier candidate is strictly farther. */
  predicate IsClosest(ls: seq<Level>, target: int, k: int) {
    0 <= k < |ls| && Candidate(ls[k], target)
    && (forall i :: 0 <= i < |ls| && Candidate(ls[i], target) ==> Dist(ls[k].pressure, target) <= Dist(ls[i].pressure, target))
    && (forall i :: 0 <= i < k && Candidate(ls[i], target) ==> Dist(ls[k].pressure, target) < Dist(ls[i].pressure, target))
  }

  /** The level basic_final keeps for a target: the first candidate, replaced
      by any later candidate strictly nearer the target. */
  function Closest(ls: seq<Level>, target: int): (r: Option<nat>)
    ensures r.None? <==> forall i :: 0 <= i < |ls| ==> !Candidate(ls[i], target)
    ensures r.Some? ==> IsClosest(ls, target, r.value)
    decreases |ls|
  {
    if ls == [] then None
    else
      var pre := ls[..|ls| - 1];
      var p := Closest(pre, target);
      var l := ls[|ls| - 1];
      assert forall i :: 0 <= i < |pre| ==> pre[i] == ls[i];
      if Candidate(l, target) && (p.None? || Dist(l.pressure, target) < Dist(ls[p.value].pressure, target))
      then Some(|ls| - 1)
      else p
  }

  /** The choice is fully determined: at most one level is the closest. */
  lemma ClosestIsUnique(ls: seq<Level>, target: int, j: int, k: int)
    requires IsClosest(ls, target, j) && IsClosest(ls, target, k)
    ensures j == k
  {
  }

  /** A sounding reduced to 925 and 850 hPa temperature and dewpoint, in tenths. */
  datatype Reduced = Reduced(date: string, t925: int, td925: int, t850: int, td850: int)

  function Reduce(p: Profile, dewCal: (int, int) -> int): Option<Reduced> {
    var c925 := Closest(p.levels, TARGET_925);
    var c850 := Closest(p.levels, TARGET_850);
    if c925.None? || c850.None? then None
    else
      var l925 := p.levels[c925.value];
      var l850 := p.levels[c850.value];
      Some(Reduced(p.date, l925.temp, DewOf(l925, dewCal), l850.temp, DewOf(l850, dewCal)))
  }

  /** A sounding yields a row exactly when both targets have a candidate, and
      the row's values come from the closest candidate for each target. */
  lemma ReduceMeaning(p: Profile, dewCal: (int, int) -> int)
    ensures Reduce(p, dewCal).None? <==>
      (forall i :: 0 <= i < |p.levels| ==> !Candidate(p.levels[i], TARGET_925))
      || (forall i :: 0 <= i < |p.levels| ==> !Candidate(p.levels[i], TARGET_850))
    ensures Reduce(p, dewCal).Some? ==>
      var r := Reduce(p, dewCal).value;
      r.date == p.date
      && (exists k :: IsClosest(p.levels, TARGET_925, k) && r.t925 == p.levels[k].temp && r.td925 == DewOf(p.levels[k], dewCal))
      && (exists k :: IsClosest(p.levels, TARGET_850, k) && r.t850 == p.levels[k].temp && r.td850 == DewOf(p.levels[k], dewCal))
  {
    var c925 := Closest(p.levels, TARGET_925);
    var c850 := Closest(p.levels, TARGET_850);
    if c925.Some? && c850.Some? {
      assert IsClosest(p.levels, TARGET_925, c925.value);
      assert IsClosest(p.levels, TARGET_850, c850.value);
    }
  }

  /** Each profile reduced on its own. */
  function Reductions(ps: seq<Profile>, dewCal: (int, int) -> int): (rs: seq<Option<Reduced>>)
    ensures |rs| == |ps|
  {
    seq(|ps|, i requires 0 <= i < |ps| => Reduce(ps[i], dewCal))
  }

  /** basic_final over all profiles: every profile that reduces contributes
      its row, in profile order, and nothing else is returned. */
  function ReduceAll(ps: seq<Profile>, dewCal: (int, int) -> int): (rows: seq<Reduced>)
    ensures rows == Somes(Reductions(ps, dewCal))
    ensures |rows| <= |ps|
    decreases |ps|
  {
    if ps == [] then []
    else
      var pre := ps[..|ps| - 1];
      assert Reductions(ps, dewCal) == Reductions(pre, dewCal) + [Reduce(ps[|ps| - 1], dewCal)];
      SomesSnoc(Reductions(pre, dewCal), Reduce(ps[|ps| - 1], dewCal));
      ReduceAll(pre, dewCal)
      + (match Reduce(ps[|ps| - 1], dewCal) case Some(r) => [r] case None => [])
  }

  /** The (temperature, dewpoint) pair the source keeps for the closest level, if any. */
  function Pick(ls: seq<Level>, target: int, dewCal: (int, int) -> int): Option<(int, int)> {
    match Closest(ls, target)
    case None => None
    case Some(k) => Some((ls[k].temp, DewOf(ls[k], dewCal)))
  }

  /** The running minimum pressure difference the level loop holds for a target. */
  function MinDiff(ls: seq<Level>, target: int): int {
    match Closest(ls, target)
    case None => 999900
    case Some(k) => Dist(ls[k].pressure, target)
  }

  /** One step of the level loop: level i replaces the choice among the
      levels before it exactly when it is a candidate and either nothing is
      chosen yet or it is strictly nearer the target. */
  lemma PickStep(ls: seq<Level>, i: nat, target: int, dewCal: (int, int) -> int)
    requires i < |ls|
    ensures var better := Candidate(ls[i], target)
        && (Pick(ls[..i], target, dewCal).None? || Dist(ls[i].pressure, target) < MinDiff(ls[..i], target));
      && Pick(ls[..i + 1], target, dewCal) == (if better then Some((ls[i].temp, DewOf(ls[i], dewCal))) else Pick(ls[..i], target, dewCal))
      && MinDiff(ls[..i + 1], target) == (if better then Dist(ls[i].pressure, target) else MinDiff(ls[..i], target))
  {
    var pre := ls[..i + 1][..i];
    assert pre == ls[..i];
    var p := Closest(pre, target);
    if p.Some? {
      assert pre[p.value] == ls[..i + 1][p.value];
    }
  }

  /** The block the level loop runs for each target: a candidate level is
      taken when nothing is chosen yet or it is strictly nearer than the
      running minimum. */
  method Offer(level: Level, target: int, chosen: Option<(int, int)>, minDiff: int, dewCal: (int, int) -> int)
    returns (chosen': Option<(int, int)>, minDiff': int)
    ensures var better := Candidate(level, target) && (chosen.None? || Dist(level.pressure, target) < minDiff);
      && chosen' == (if better then Some((level.temp, DewOf(level, dewCal))) else chosen)
      && minDiff' == (if better then Dist(level.pressure, target) else minDiff)
  {
    chosen', minDiff' := chosen, minDiff;
    var diff := Dist(level.pressure, target);
    if diff < TOLERANCE && level.temp > MIN_TEMP {
      if level.depression > MIN_DEPRESSION {
        if chosen.None? || diff < minDiff {
          chosen' := Some((level.temp, level.temp - level.depression));
          minDiff' := diff;
        }
      } else if level.rh > MIN_RH {
        if chosen.None? || diff < minDiff {
          chosen' := Some((level.temp, dewCal(level.temp, level.rh)));
          minDiff' := diff;
        }
      }
    }
  }

  /** The level loop of basic_final: running choices for 925 and 850 hPa. */
  method PickLevels(levels: seq<Level>, dewCal: (int, int) -> int) returns (l925: Option<(int, int)>, l850: Option<(int, int)>)
    ensures l925 == Pick(levels, TARGET_925, dewCal)
    ensures l850 == Pick(levels, TARGET_850, dewCal)
  {
    l925, l850 := None, None;
    var min9diff, min8diff := 999900, 999900;
    for i := 0 to |levels|
      invariant l925 == Pick(levels[..i], TARGET_925, dewCal) && min9diff == MinDiff(levels[..i], TARGET_925)
      invariant l850 == Pick(levels[..i], TARGET_850, dewCal) && min8diff == MinDiff(levels[..i], TARGET_850)
    {
      var level := levels[i];
      PickStep(levels, i, TARGET_925, dewCal);
      PickStep(levels, i, TARGET_850, dewCal);
      l850, min8diff := Offer(level, TARGET_850, l850, min8diff, dewCal);
      l925, min9diff := Offer(level, TARGET_925, l925, min9diff, dewCal);
    }
    assert levels[..|levels|] == levels;
  }

  /** basic_final: one row per profile that has both target levels, in order. */
  method BasicFinal(soundings: seq<Profile>, dewCal: (int, int) -> int) returns (rows: seq<Reduced>)
    ensures rows == ReduceAll(soundings, dewCal)
  {
    rows := [];
    for s := 0 to |soundings|
      invariant rows == ReduceAll(soundings[..s], dewCal)
    {
      assert soundings[..s + 1][..s] == soundings[..s];
      var snd := soundings[s];
      var l925, l850 := PickLevels(snd.levels, dewCal);
      if l850.Some? && l925.Some? {
        rows := rows + [Reduced(snd.date, l925.value.0, l925.value.1, l850.value.0, l850.value.1)];
      }
    }
    assert soundings[..|soundings|] == soundings;
  }
}
