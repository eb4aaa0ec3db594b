/** Decoding of hourly surface reports (read_integrated_sfcobs.py): the
    temperature and dewpoint fields, the present-weather slots reduced to one
    precipitation category, and the rules that drop a report. Temperatures
    stay in tenths of a degree Celsius, the unit the archive writes. */
module SurfaceObs {
  import opened Common
  import opened Text

  /** Precipitation categories: -1 unknown or bad, 0 rain, 1 mixed, 2 frozen. */
  const UNKNOWN := -1
  const RAIN := 0
  const MIXED := 1
  const FROZEN := 2

  /** The two present-weather coding systems, each with its own code tables. */
  datatype Scheme = Automated | Manual   // AW1-AW4 and MW1-MW6

  // Manual (MW) code tables: "20".."25" style singletons plus the ranges 50-67 and 70-79.
  const MANUAL_RAIN: set<string> :=
    {"20", "21", "23", "25", "80", "81", "82",
     "50", "51", "52", "53", "54", "55", "56", "57", "58", "59",
     "60", "61", "62", "63", "64", "65", "66", "67"}
  const MANUAL_MIXED: set<string> := {"23", "26", "68", "69", "83", "84"}
  const MANUAL_FROZEN: set<string> :=
    {"22", "85", "86", "70", "71", "72", "73", "74", "75", "76", "77", "78", "79"}

  // Automated (AW) code tables: singletons plus the ranges 50-66 and 70-78.
  const AUTO_RAIN: set<string> :=
    {"23", "25", "43", "44", "81", "82", "83", "84",
     "50", "51", "52", "53", "54", "55", "56", "57", "58", "59",
     "60", "61", "62", "63", "64", "65", "66"}
  const AUTO_MIXED: set<string> := {"67", "68"}
  const AUTO_FROZEN: set<string> :=
    {"24", "45", "46", "85", "86", "87", "70", "71", "72", "73", "74", "75", "76", "77", "78"}

  /** Quality flags that mark a slot as unusable. */
  const BAD_QUALITY: set<string> := {"3", "7"}

  function RainCodes(k: Scheme): set<string> { if k == Automated then AUTO_RAIN else MANUAL_RAIN }
  function MixedCodes(k: Scheme): set<string> { if k == Automated then AUTO_MIXED else MANUAL_MIXED }
  function FrozenCodes(k: Scheme): set<string> { if k == Automated then AUTO_FROZEN else MANUAL_FROZEN }

  /** The table lookup, tried rain first, then mixed, then frozen; a code in
      none of the tables is unknown. */
  function Lookup(code: string, k: Scheme): (c: int)
    ensures c == RAIN <==> code in RainCodes(k)
    ensures c == MIXED <==> code !in RainCodes(k) && code in MixedCodes(k)
    ensures c == FROZEN <==> code !in RainCodes(k) && code !in MixedCodes(k) && code in FrozenCodes(k)
    ensures c == UNKNOWN <==> code !in RainCodes(k) + MixedCodes(k) + FrozenCodes(k)
  {
    if code in RainCodes(k) then RAIN
    else if code in MixedCodes(k) then MIXED
    else if code in FrozenCodes(k) then FROZEN
    else UNKNOWN
  }

  /** One present-weather slot "code,quality": nothing when the code is
      blank, -1 when the quality flag is bad, otherwise the table lookup of
      the slot's scheme. A non-blank slot without a comma has no quality
      token: IndexError. */
  function DecodeSlot(slot: string, k: Scheme): (r: Result<Option<int>>)
    ensures Split(slot, ',')[0] == [] <==> r == Ok(None)
    ensures r.Err? <==> Split(slot, ',')[0] != [] && |Split(slot, ',')| < 2
    ensures r.Err? ==> r.error == IndexError
    ensures r.Ok? && r.value.Some? ==> UNKNOWN <= r.value.value <= FROZEN
    ensures r.Ok? && r.value.Some? && Split(slot, ',')[1] in BAD_QUALITY ==> r.value.value == UNKNOWN
    ensures r.Ok? && r.value.Some? && Split(slot, ',')[1] !in BAD_QUALITY ==> r.value.value == Lookup(Split(slot, ',')[0], k)
  {
    var parts := Split(slot, ',');
    if parts[0] == [] then Ok(None)
    else if |parts| < 2 then Err(IndexError)
    else if parts[1] in BAD_QUALITY then Ok(Some(UNKNOWN))
    else Ok(Some(Lookup(parts[0], k)))
  }

  /** Each slot of a run, decoded on its own. */
  function SlotResults(slots: seq<string>, k: Scheme): (rs: seq<Result<Option<int>>>)
    ensures |rs| == |slots|
    ensures forall i :: 0 <= i < |slots| ==> rs[i] == DecodeSlot(slots[i], k)
  {
    seq(|slots|, i requires 0 <= i < |slots| => DecodeSlot(slots[i], k))
  }

  /** The categories contributed by a run of slots: the decoding fails
      exactly when some slot raises, and then with IndexError from the first
      such slot; otherwise every decoded category is kept, in slot order. */
  function SlotCodes(slots: seq<string>, k: Scheme): (r: Result<seq<int>>)
    ensures r.Ok? <==> forall i :: 0 <= i < |slots| ==> DecodeSlot(slots[i], k).Ok?
    ensures r.Ok? ==> r.value == Somes(Present(SlotResults(slots, k)))
    ensures r.Err? ==> r.error == IndexError && exists i :: FirstErr(SlotResults(slots, k), i)
    ensures r.Ok? ==> |r.value| <= |slots|
    ensures r.Ok? ==> forall c :: c in r.value ==> UNKNOWN <= c <= FROZEN
  {
    var rs := SlotResults(slots, k);
    var r := Gather(rs);
    if r.Ok? then
      assert forall c :: Some(c) in Present(rs) ==> UNKNOWN <= c <= FROZEN by {
        forall c | Some(c) in Present(rs) ensures UNKNOWN <= c <= FROZEN {
          var i :| 0 <= i < |rs| && Present(rs)[i] == Some(c);
          assert rs[i] == DecodeSlot(slots[i], k);
        }
      }
      r
    else r
  }

  /** Reconciliation over the set of slot categories. Writing I for the
      informative categories (all but -1): no informative category gives -1,
      exactly one gives that category, two or more give mixed. */
  ghost function Reconcile(s: set<int>): (r: int)
    ensures r == UNKNOWN <==> s <= {UNKNOWN}
    ensures |s - {UNKNOWN}| == 1 ==> s - {UNKNOWN} == {r}
    ensures |s - {UNKNOWN}| >= 2 ==> r == MIXED
    ensures r == UNKNOWN || r == MIXED || r in s
  {
    if |s| == 1 then
      HasElement(s);
      var x :| x in s;
      SingletonSet(s, x);
      x
    else if |s| == 0 then UNKNOWN
    else if UNKNOWN in s then
      if |s| == 2 then
        RemoveOne(s, UNKNOWN);
        HasElement(s - {UNKNOWN});
        var x :| x in s - {UNKNOWN};
        SingletonSet(s - {UNKNOWN}, x);
        x
      else
        RemoveOne(s, UNKNOWN);
        MIXED
    else
      assert s - {UNKNOWN} == s;
      MIXED
  }

  /** `set(all_obs)`. */
  function Categories(xs: seq<int>): set<int> {
    set c | c in xs
  }

  /** The category of a report from its automated slots, then its manual slots. */
  ghost function PrecipTypeOf(aw: seq<string>, mw: seq<string>): (r: Result<int>)
    ensures r.Ok? ==> UNKNOWN <= r.value <= FROZEN
    ensures r.Err? ==> r.error == IndexError
  {
    var auto :- SlotCodes(aw, Automated);
    var manual :- SlotCodes(mw, Manual);
    var s := Categories(auto + manual);
    assert forall c :: c in s ==> UNKNOWN <= c <= FROZEN;
    Ok(Reconcile(s))
  }

  /** Appends the categories of one run of slots to `allObs`, slot by slot. */
  method CollectSlots(slots: seq<string>, k: Scheme, allObs: seq<int>) returns (r: Result<seq<int>>)
    ensures r.Err? <==> SlotCodes(slots, k).Err?
    ensures r.Err? ==> r.error == SlotCodes(slots, k).error
    ensures r.Ok? ==> r.value == allObs + SlotCodes(slots, k).value
  {
    ghost var rs := SlotResults(slots, k);
    var acc := allObs;
    assert rs[0..] == rs;
    for i := 0 to |slots|
      invariant Prefixed(allObs, Gather(rs)) == Prefixed(acc, Gather(rs[i..]))
    {
      GatherStep(rs, i);
      var c := DecodeSlot(slots[i], k);
      assert c == rs[i];
      if c.Err? {
        return Err(c.error);
      }
      var added := if c.value.Some? then [c.value.value] else [];
      PrefixedTwice(acc, added, Gather(rs[i + 1..]));
      acc := acc + added;
    }
    assert rs[|slots|..] == [];
    assert acc + [] == acc;
    r := Ok(acc);
  }

  /** precip_type: the categories of AW1-AW4 and MW1-MW6, reduced over their set. */
  method PrecipType(aw: seq<string>, mw: seq<string>) returns (r: Result<int>)
    ensures r == PrecipTypeOf(aw, mw)
  {
    var auto := CollectSlots(aw, Automated, []);
    if auto.Err? {
      return Err(auto.error);
    }
    var all := CollectSlots(mw, Manual, auto.value);
    if all.Err? {
      return Err(all.error);
    }
    var allObs := all.value;
    EmptyPrefix(SlotCodes(aw, Automated).value);
    var c := ReduceKinds(Categories(allObs));
    r := Ok(c);
  }

  lemma EmptyPrefix(xs: seq<int>)
    ensures [] + xs == xs
  {
  }

  /** The case analysis of precip_type on the set of slot categories. */
  method ReduceKinds(s: set<int>) returns (c: int)
    ensures c == Reconcile(s)
  {
    if |s| == 1 {
      HasElement(s);
      var x :| x in s;
      SingletonSet(s, x);
      ReconcileSingleton(s, x);
      c := x;
    } else if |s| == 0 {
      c := UNKNOWN;
    } else if UNKNOWN in s {
      if |s| == 2 {
        RemoveOne(s, UNKNOWN);
        HasElement(s - {UNKNOWN});
        var x :| x in s && x != UNKNOWN;
        SingletonSet(s - {UNKNOWN}, x);
        c := x;
      } else {
        RemoveOne(s, UNKNOWN);
        c := MIXED;
      }
    } else {
      assert s - {UNKNOWN} == s;
      c := MIXED;
    }
  }

  lemma ReconcileSingleton(s: set<int>, x: int)
    requires s == {x}
    ensures Reconcile(s) == x
  {
    if x != UNKNOWN {
      assert s - {UNKNOWN} == {x};
    }
  }

  /** process_temp: the first comma-separated token, a number of tenths of a
      degree (the source divides it by 10 to get degrees). */
  function ProcessTemp(field: string): (r: Result<int>)
    ensures r.Err? ==> r.error == ValueError
  {
    match ParseInt(Split(field, ',')[0])
    case Some(v) => Ok(v)
    case None => Err(ValueError)
  }

  /** The archive's "+0123,1" form: the signed value before the comma, in tenths. */
  lemma ProcessTempReadsFirstToken(sign: char, digits: string, quality: string)
    requires sign == '+' || sign == '-'
    requires digits != [] && AllDigits(digits)
    ensures ProcessTemp([sign] + digits + [','] + quality)
         == Ok(if sign == '-' then 0 - Value(digits) else Value(digits))
  {
    var first := [sign] + digits;
    assert ',' !in first by {
      forall i | 0 <= i < |first| ensures first[i] != ',' {
        if i > 0 { assert first[i] == digits[i - 1]; }
      }
    }
    SplitAtFirst(first, ',', quality);
    ParseSignedDigits(sign, digits);
  }

  /** One row of the surface archive as read with every column as text; a
      blank cell is missing (None). `aw` holds AW1-AW4 and `mw` MW1-MW6. */
  datatype Report = Report(
    date: Option<string>,
    tmp: Option<string>,
    dew: Option<string>,
    reportType: Option<string>,
    aw: seq<Option<string>>,
    mw: seq<Option<string>>)

  /** A decoded surface observation; temperature and dewpoint in tenths of a degree. */
  datatype SurfaceOb = SurfaceOb(date: string, tmp: int, dew: int, precip: int)

  predicate Missing(cells: seq<Option<string>>, i: nat) {
    i >= |cells| || cells[i].None?
  }

  /** The row filters applied before decoding: DATE, TMP and DEW present, the
      report type (compared before stripping) is not "SOD", and AW1 and MW1
      are not both missing. */
  predicate Retained(r: Report) {
    r.date.Some? && r.tmp.Some? && r.dew.Some?
    && r.reportType != Some("SOD")
    && !(Missing(r.aw, 0) && Missing(r.mw, 0))
  }

  /** A cell after `fillna("")` and the strip applied to every column. */
  function Cell(c: Option<string>): string {
    match c
    case None => []
    case Some(s) => Strip(s)
  }

  function Cells(cs: seq<Option<string>>): (r: seq<string>)
    ensures |r| == |cs|
  {
    seq(|cs|, i requires 0 <= i < |cs| => Cell(cs[i]))
  }

  /** One row of read_synoptic: dropped (None), kept, or an exception. */
  ghost function DecodeReport(r: Report): (res: Result<Option<SurfaceOb>>)
    ensures !Retained(r) ==> res == Ok(None)
    ensures res.Ok? && res.value.Some? ==>
      Retained(r)
      && res.value.value.date == Strip(r.date.value)
      && ProcessTemp(Strip(r.tmp.value)) == Ok(res.value.value.tmp)
      && ProcessTemp(Strip(r.dew.value)) == Ok(res.value.value.dew)
      && PrecipTypeOf(Cells(r.aw), Cells(r.mw)) == Ok(res.value.value.precip)
      && RAIN <= res.value.value.precip <= FROZEN
    ensures (Retained(r) && ProcessTemp(Strip(r.tmp.value)).Ok? && ProcessTemp(Strip(r.dew.value)).Ok?
             && PrecipTypeOf(Cells(r.aw), Cells(r.mw)).Ok?) ==>
      var p := PrecipTypeOf(Cells(r.aw), Cells(r.mw)).value;
      res == Ok(if p == UNKNOWN then None
        else Some(SurfaceOb(Strip(r.date.value), ProcessTemp(Strip(r.tmp.value)).value, ProcessTemp(Strip(r.dew.value)).value, p)))
    ensures res == Err(ValueError) <==>
      Retained(r) && (ProcessTemp(Strip(r.tmp.value)).Err? || ProcessTemp(Strip(r.dew.value)).Err?)
    ensures res == Err(IndexError) <==>
      Retained(r) && ProcessTemp(Strip(r.tmp.value)).Ok? && ProcessTemp(Strip(r.dew.value)).Ok?
      && PrecipTypeOf(Cells(r.aw), Cells(r.mw)).Err?
  {
    if !Retained(r) then Ok(None)
    else
      var t :- ProcessTemp(Strip(r.tmp.value));
      var d :- ProcessTemp(Strip(r.dew.value));
      var p :- PrecipTypeOf(Cells(r.aw), Cells(r.mw));
      if p == UNKNOWN then Ok(None)
      else Ok(Some(SurfaceOb(Strip(r.date.value), t, d, p)))
  }

  /** Each row of the table, decoded on its own. */
  ghost function RowResults(rows: seq<Report>): (rs: seq<Result<Option<SurfaceOb>>>)
    ensures |rs| == |rows|
    ensures forall i :: 0 <= i < |rows| ==> rs[i] == DecodeReport(rows[i])
  {
    MapSeq(rows, DecodeReport)
  }

  /** read_synoptic: it fails exactly when some row raises, with the
      exception of the first such row; otherwise the kept rows'
      observations, each once and in file order. */
  ghost function ReadSynoptic(rows: seq<Report>): (res: Result<seq<SurfaceOb>>)
    ensures res.Ok? <==> forall i :: 0 <= i < |rows| ==> DecodeReport(rows[i]).Ok?
    ensures res.Ok? ==> res.value == Somes(Present(RowResults(rows)))
    ensures res.Err? ==> exists i :: FirstErr(RowResults(rows), i) && res.error == DecodeReport(rows[i]).error
    ensures res.Ok? ==> |res.value| <= |rows|
    ensures res.Ok? ==> forall o :: o in res.value ==> RAIN <= o.precip <= FROZEN
  {
    var rs := RowResults(rows);
    var r := Gather(rs);
    if r.Ok? then
      assert forall o :: Some(o) in Present(rs) ==> RAIN <= o.precip <= FROZEN by {
        forall o | Some(o) in Present(rs) ensures RAIN <= o.precip <= FROZEN {
          var i :| 0 <= i < |rs| && Present(rs)[i] == Some(o);
          assert rs[i] == DecodeReport(rows[i]);
        }
      }
      r
    else r
  }

  /** A row that fails the filters never reaches the decoders, so it can
      neither raise nor contribute an observation. */
  lemma DroppedRowsAreInert(rows: seq<Report>, i: nat)
    requires i < |rows| && !Retained(rows[i])
    ensures ReadSynoptic(rows) == ReadSynoptic(rows[..i] + rows[i + 1..])
  {
    var rs := RowResults(rows);
    assert rs[i] == Ok(None);
    GatherSkipsNone(rs, i);
    MapSeqSkip(rows, DecodeReport, i);
  }

  /** AW code "02" is in none of the automated tables, so a report whose
      only slot is AW1 = "02,1" reconciles to -1 and is dropped. */
  lemma AutomatedCode02IsUnknown()
    ensures PrecipTypeOf(["02,1"], []) == Ok(UNKNOWN)
  {
    AutomatedSlot02();
    var slots := ["02,1"];
    assert slots[0] == "02,1" && slots[1..] == [];
    assert SlotCodes(slots[1..], Automated) == Ok([]);
    assert [UNKNOWN] + [] == [UNKNOWN];
    assert SlotCodes(slots, Automated) == Ok([UNKNOWN]);
    assert SlotCodes([], Manual) == Ok([]);
    assert (set c | c in [UNKNOWN] + []) == {UNKNOWN};
  }

  lemma AutomatedSlot02()
    ensures DecodeSlot("02,1", Automated) == Ok(Some(UNKNOWN))
  {
    SplitSlot02();
    AutomatedLookup02();
    assert "1" !in BAD_QUALITY;
  }

  lemma SplitSlot02()
    ensures Split("02,1", ',') == ["02", "1"]
  {
    assert "02,1" == "02" + [','] + "1";
    SplitAtFirst("02", ',', "1");
    SplitWhole("1", ',');
  }

  lemma AutomatedLookup02()
    ensures Lookup("02", Automated) == UNKNOWN
  {
    assert "02" !in AUTO_RAIN;
    assert "02" !in AUTO_MIXED;
    assert "02" !in AUTO_FROZEN;
  }

  /** Manual code "23" is listed as both rain and mixed; rain is tried first. */
  lemma ManualCode23IsRain()
    ensures Lookup("23", Manual) == RAIN
  {
  }
}
