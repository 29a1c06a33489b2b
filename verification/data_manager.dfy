/**
 * The pure pieces of `DataManager`: the macro column name derived from a
 * ticker, the Kaggle volume-column pick, the 30-day download schedule and the
 * keep-last merge of a stored candle frame with freshly downloaded candles.
 * The exchange and yfinance are replaced by their answers.
 */
module DataManager {
  import opened Common

  // ---------------------------------------------------------------------------
  // Ticker -> column name
  // ---------------------------------------------------------------------------

  /** `str.lower` on the ASCII letters; every other character is kept. */
  function LowerChar(c: char): (r: char)
    ensures !('A' <= r <= 'Z')
    ensures !('A' <= c <= 'Z') ==> r == c
  {
    if 'A' <= c <= 'Z' then (c as int - 'A' as int + 'a' as int) as char else c
  }

  function Lower(s: string): (r: string)
    ensures |r| == |s|
    ensures forall k :: 0 <= k < |s| ==> r[k] == LowerChar(s[k])
  {
    if |s| == 0 then "" else [LowerChar(s[0])] + Lower(s[1..])
  }

  /**
   * `s.replace(pat, '')`: scan left to right and drop every non-overlapping
   * occurrence of `pat`.
   */
  function RemoveAll(s: string, pat: string): (r: string)
    requires |pat| > 0
    ensures multiset(r) <= multiset(s)
    ensures |r| <= |s|
    decreases |s|
  {
    if |s| < |pat| then s
    else if s[..|pat|] == pat then
      assert s == s[..|pat|] + s[|pat|..];
      RemoveAll(s[|pat|..], pat)
    else
      assert s == [s[0]] + s[1..];
      [s[0]] + RemoveAll(s[1..], pat)
  }

  /** Removing a one-character pattern leaves none of that character. */
  lemma {:induction false} RemoveAllSingleChar(s: string, c: char)
    ensures c !in RemoveAll(s, [c])
    decreases |s|
  {
    if |s| >= 1 {
      if s[..1] == [c] {
        RemoveAllSingleChar(s[1..], c);
      } else {
        assert s[0] != c by { assert s[..1] == [s[0]]; }
        RemoveAllSingleChar(s[1..], c);
      }
    }
  }

  /** A character absent from the input stays absent. */
  lemma RemoveAllKeepsAbsent(s: string, pat: string, c: char)
    requires |pat| > 0 && c !in s
    ensures c !in RemoveAll(s, pat)
  {
    assert multiset(s)[c] == 0;
  }

  /** The column stem of a macro ticker: lower-cased, then '^', '=f' and '-y.nyb' removed. */
  function CleanName(ticker: string): (r: string)
    ensures '^' !in r
    ensures |r| <= |ticker|
  {
    var lowered := Lower(ticker);
    var noCaret := RemoveAll(lowered, "^");
    RemoveAllSingleChar(lowered, '^');
    var noFuture := RemoveAll(noCaret, "=f");
    RemoveAllKeepsAbsent(noCaret, "=f", '^');
    var r := RemoveAll(noFuture, "-y.nyb");
    RemoveAllKeepsAbsent(noFuture, "-y.nyb", '^');
    r
  }

  /**
   * The name of a macro ticker's column. The success path (rename of the
   * fetched `Close`) and the fallback path (a zero-filled column) both use it.
   */
  function MacroColumn(ticker: string): (r: string)
    ensures '^' !in r
    ensures |r| >= |"_close"| && r[|r| - |"_close"|..] == "_close"
  {
    CleanName(ticker) + "_close"
  }

  const DXY_TICKER: string := "DX-Y.NYB"
  const VIX_TICKER: string := "^VIX"
  const GOLD_TICKER: string := "GC=F"
  const TNX_TICKER: string := "^TNX"

  /** The four macro tickers joined onto the BTC frame, in order. */
  const MACRO_TICKERS: seq<string> := [DXY_TICKER, VIX_TICKER, GOLD_TICKER, TNX_TICKER]

  /** The column the trainer's DXY features read. */
  const TRAINER_DXY_COLUMN: string := "dxy_close"

  /** A pattern whose first character does not occur is never removed. */
  lemma {:induction false} RemoveAllAbsent(s: string, pat: string)
    requires |pat| > 0 && pat[0] !in s
    ensures RemoveAll(s, pat) == s
    decreases |s|
  {
    if |s| >= |pat| {
      assert s[..|pat|][0] != pat[0];
      RemoveAllAbsent(s[1..], pat);
      assert s == [s[0]] + s[1..];
    }
  }

  /** A first character that cannot start the pattern is kept. */
  lemma RemoveAllSkip(s: string, pat: string)
    requires |pat| > 0 && |s| > 0 && s[0] != pat[0]
    ensures RemoveAll(s, pat) == [s[0]] + RemoveAll(s[1..], pat)
  {
    if |s| >= |pat| {
      assert s[..|pat|][0] == s[0];
      assert s[..|pat|] != pat;
    } else {
      assert s == [s[0]] + s[1..];
    }
  }

  /** A leading occurrence is dropped and the scan resumes after it. */
  lemma RemoveAllLeading(pat: string, a: string)
    requires |pat| > 0
    ensures RemoveAll(pat + a, pat) == RemoveAll(a, pat)
  {
    var s := pat + a;
    assert s[..|pat|] == pat;
    assert s[|pat|..] == a;
  }

  /** A pattern at the end of a string free of its first character is removed, and nothing else. */
  lemma {:induction false} RemoveAllTrailing(a: string, pat: string)
    requires |pat| > 0 && pat[0] !in a
    ensures RemoveAll(a + pat, pat) == a
    decreases |a|
  {
    if |a| == 0 {
      assert a + pat == pat + a;
      RemoveAllLeading(pat, a);
    } else {
      var s := a + pat;
      assert s[0] == a[0];
      RemoveAllSkip(s, pat);
      assert s[1..] == a[1..] + pat;
      RemoveAllTrailing(a[1..], pat);
      assert a == [a[0]] + a[1..];
    }
  }

  lemma DxyLower()
    ensures Lower(DXY_TICKER) == "dx-y.nyb"
  {
    assert LowerChar('D') == 'd' && LowerChar('X') == 'x' && LowerChar('Y') == 'y';
    assert LowerChar('N') == 'n' && LowerChar('B') == 'b';
  }

  lemma DxyKeepsCaretAndFuture()
    ensures RemoveAll("dx-y.nyb", "^") == "dx-y.nyb" && RemoveAll("dx-y.nyb", "=f") == "dx-y.nyb"
  {
    var l := "dx-y.nyb";
    assert l == ['d', 'x', '-', 'y', '.', 'n', 'y', 'b'];
    assert forall k :: 0 <= k < |l| ==> l[k] != '^' && l[k] != '=';
    RemoveAllAbsent(l, "^");
    RemoveAllAbsent(l, "=f");
  }

  lemma DxySuffix()
    ensures RemoveAll("dx-y.nyb", "-y.nyb") == "dx"
  {
    assert "dx-y.nyb" == "dx" + "-y.nyb";
    assert "dx" == ['d', 'x'];
    RemoveAllTrailing("dx", "-y.nyb");
  }

  lemma DxyStem()
    ensures CleanName(DXY_TICKER) == "dx"
  {
    DxyLower();
    DxyKeepsCaretAndFuture();
    DxySuffix();
  }

  lemma VixLower()
    ensures Lower(VIX_TICKER) == "^vix"
  {
    assert LowerChar('^') == '^' && LowerChar('V') == 'v' && LowerChar('I') == 'i' && LowerChar('X') == 'x';
  }

  lemma VixCaret()
    ensures RemoveAll("^vix", "^") == "vix"
    ensures RemoveAll("vix", "=f") == "vix" && RemoveAll("vix", "-y.nyb") == "vix"
  {
    VixDropsCaret();
    VixKeepsSuffixes();
  }

  lemma VixDropsCaret()
    ensures RemoveAll("^vix", "^") == "vix"
  {
    var v := "vix";
    assert v == ['v', 'i', 'x'];
    assert "^vix" == "^" + v;
    RemoveAllLeading("^", v);
    RemoveAllAbsent(v, "^");
  }

  lemma VixKeepsSuffixes()
    ensures RemoveAll("vix", "=f") == "vix" && RemoveAll("vix", "-y.nyb") == "vix"
  {
    var v := "vix";
    assert v == ['v', 'i', 'x'];
    RemoveAllAbsent(v, "=f");
    RemoveAllAbsent(v, "-y.nyb");
  }

  lemma VixStem()
    ensures CleanName(VIX_TICKER) == "vix"
  {
    VixLower();
    VixCaret();
  }

  lemma GoldLower()
    ensures Lower(GOLD_TICKER) == "gc=f"
  {
    assert LowerChar('G') == 'g' && LowerChar('C') == 'c' && LowerChar('=') == '=' && LowerChar('F') == 'f';
  }

  lemma GoldKeepsCaret()
    ensures RemoveAll("gc=f", "^") == "gc=f"
  {
    assert "gc=f" == ['g', 'c', '=', 'f'];
    RemoveAllAbsent("gc=f", "^");
  }

  lemma GoldFuture()
    ensures RemoveAll("gc=f", "=f") == "gc" && RemoveAll("gc", "-y.nyb") == "gc"
  {
    GoldDropsFuture();
    GoldKeepsSuffix();
  }

  lemma GoldDropsFuture()
    ensures RemoveAll("gc=f", "=f") == "gc"
  {
    var g := "gc";
    assert g == ['g', 'c'];
    assert "gc=f" == g + "=f";
    RemoveAllTrailing(g, "=f");
  }

  lemma GoldKeepsSuffix()
    ensures RemoveAll("gc", "-y.nyb") == "gc"
  {
    var g := "gc";
    assert g == ['g', 'c'];
    RemoveAllAbsent(g, "-y.nyb");
  }

  lemma GoldStem()
    ensures CleanName(GOLD_TICKER) == "gc"
  {
    GoldLower();
    GoldKeepsCaret();
    GoldFuture();
  }

  lemma TnxLower()
    ensures Lower(TNX_TICKER) == "^tnx"
  {
    assert LowerChar('^') == '^' && LowerChar('T') == 't' && LowerChar('N') == 'n' && LowerChar('X') == 'x';
  }

  lemma TnxCaret()
    ensures RemoveAll("^tnx", "^") == "tnx"
    ensures RemoveAll("tnx", "=f") == "tnx" && RemoveAll("tnx", "-y.nyb") == "tnx"
  {
    TnxDropsCaret();
    TnxKeepsSuffixes();
  }

  lemma TnxDropsCaret()
    ensures RemoveAll("^tnx", "^") == "tnx"
  {
    var t := "tnx";
    assert t == ['t', 'n', 'x'];
    assert "^tnx" == "^" + t;
    RemoveAllLeading("^", t);
    RemoveAllAbsent(t, "^");
  }

  lemma TnxKeepsSuffixes()
    ensures RemoveAll("tnx", "=f") == "tnx" && RemoveAll("tnx", "-y.nyb") == "tnx"
  {
    var t := "tnx";
    assert t == ['t', 'n', 'x'];
    RemoveAllAbsent(t, "=f");
    RemoveAllAbsent(t, "-y.nyb");
  }

  lemma TnxStem()
    ensures CleanName(TNX_TICKER) == "tnx"
  {
    TnxLower();
    TnxCaret();
  }

  /** The four tickers yield the stems 'dx', 'vix', 'gc' and 'tnx'. */
  lemma MacroColumnNames()
    ensures CleanName(DXY_TICKER) == "dx"
    ensures CleanName(VIX_TICKER) == "vix"
    ensures CleanName(GOLD_TICKER) == "gc"
    ensures CleanName(TNX_TICKER) == "tnx"
  {
    DxyStem();
    VixStem();
    GoldStem();
    TnxStem();
  }

  /** The macro columns the pipeline joins onto the BTC frame, one per ticker. */
  function PipelineMacroColumns(): (cols: set<string>)
    ensures forall k :: 0 <= k < |MACRO_TICKERS| ==> MacroColumn(MACRO_TICKERS[k]) in cols
    ensures forall c :: c in cols ==> exists k :: 0 <= k < |MACRO_TICKERS| && c == MacroColumn(MACRO_TICKERS[k])
  {
    set k | 0 <= k < |MACRO_TICKERS| :: MacroColumn(MACRO_TICKERS[k])
  }

  /** No macro column is spelled 'dxy_close': the stems are 'dx', 'vix', 'gc' and 'tnx'. */
  lemma ColumnIsNotTrainers(k: nat)
    requires k < |MACRO_TICKERS|
    ensures MacroColumn(MACRO_TICKERS[k]) != TRAINER_DXY_COLUMN
  {
    if k == 0 {
      DxyColumnNotTrainers();
    } else if k == 1 {
      VixColumnNotTrainers();
    } else if k == 2 {
      GoldColumnNotTrainers();
    } else {
      TnxColumnNotTrainers();
    }
  }

  lemma DxyColumnNotTrainers()
    ensures MacroColumn(MACRO_TICKERS[0]) != TRAINER_DXY_COLUMN
  {
    assert MACRO_TICKERS[0] == DXY_TICKER;
    DxyStem();
    DxyColumnSpelling();
  }

  lemma VixColumnNotTrainers()
    ensures MacroColumn(MACRO_TICKERS[1]) != TRAINER_DXY_COLUMN
  {
    assert MACRO_TICKERS[1] == VIX_TICKER;
    VixStem();
    assert MacroColumn(VIX_TICKER)[0] == 'v';
  }

  lemma GoldColumnNotTrainers()
    ensures MacroColumn(MACRO_TICKERS[2]) != TRAINER_DXY_COLUMN
  {
    assert MACRO_TICKERS[2] == GOLD_TICKER;
    GoldStem();
    assert MacroColumn(GOLD_TICKER)[0] == 'g';
  }

  lemma TnxColumnNotTrainers()
    ensures MacroColumn(MACRO_TICKERS[3]) != TRAINER_DXY_COLUMN
  {
    assert MACRO_TICKERS[3] == TNX_TICKER;
    TnxStem();
    assert MacroColumn(TNX_TICKER)[0] == 't';
  }

  /**
   * As written, the trainer's test `'dxy_close' in df.columns` fails on the
   * pipeline's columns: the DXY column is named 'dx_close', so the trainer's
   * DXY features are always 0.
   */
  lemma TrainerMissesDxyColumn()
    ensures MacroColumn(DXY_TICKER) == "dx_close"
    ensures TRAINER_DXY_COLUMN !in PipelineMacroColumns()
  {
    DxyStem();
    DxyColumnSpelling();
    forall k | 0 <= k < |MACRO_TICKERS|
      ensures MacroColumn(MACRO_TICKERS[k]) != TRAINER_DXY_COLUMN
    {
      ColumnIsNotTrainers(k);
    }
  }

  lemma DxyColumnSpelling()
    ensures "dx" + "_close" == "dx_close" && "dx_close" != TRAINER_DXY_COLUMN
  {
    assert |TRAINER_DXY_COLUMN| == 9;
  }

  /** The DXY column name as the trainer evidently meant it: the one the pipeline writes for the DXY ticker. */
  function TrainerDxyColumnFixed(): (r: string)
    ensures r == MacroColumn(DXY_TICKER)
    ensures r in PipelineMacroColumns()
  {
    assert MACRO_TICKERS[0] == DXY_TICKER;
    TrainerMissesDxyColumn();
    "dx_close"
  }

  // ---------------------------------------------------------------------------
  // Kaggle volume column
  // ---------------------------------------------------------------------------

  /** The Kaggle volume column names, in order of preference. */
  const VOLUME_COLUMN_PRIORITY: seq<string> :=
    ["Volume_(BTC)", "Volume", "Volume (BTC)", "Volume (Currency)", "Volume USD"]

  /** The index of the first candidate present among the columns, if any. */
  function FirstPresent(candidates: seq<string>, columns: set<string>): (r: Option<nat>)
    ensures r.Some? ==> r.value < |candidates| && candidates[r.value] in columns
    ensures r.Some? ==> forall j :: 0 <= j < r.value ==> candidates[j] !in columns
    ensures r.None? <==> forall j :: 0 <= j < |candidates| ==> candidates[j] !in columns
    decreases |candidates|
  {
    if |candidates| == 0 then None
    else if candidates[0] in columns then Some(0)
    else match FirstPresent(candidates[1..], columns)
      case None => None
      case Some(i) => Some(i + 1)
  }

  datatype VolumeError = NoVolumeColumn(tried: seq<string>)

  /** The volume column `_preprocess_kaggle_data` renames to 'volume', or the error it raises. */
  function PickVolumeColumn(columns: set<string>): (r: Result<string, VolumeError>)
    ensures r.Success? ==> r.value in columns && r.value in VOLUME_COLUMN_PRIORITY
    ensures r.Success? ==> exists i :: 0 <= i < |VOLUME_COLUMN_PRIORITY| && VOLUME_COLUMN_PRIORITY[i] == r.value
                                       && forall j :: 0 <= j < i ==> VOLUME_COLUMN_PRIORITY[j] !in columns
    ensures r.Failure? <==> forall j :: 0 <= j < |VOLUME_COLUMN_PRIORITY| ==> VOLUME_COLUMN_PRIORITY[j] !in columns
    ensures r.Failure? ==> r.error.tried == VOLUME_COLUMN_PRIORITY
  {
    match FirstPresent(VOLUME_COLUMN_PRIORITY, columns)
    case None => Failure(NoVolumeColumn(VOLUME_COLUMN_PRIORITY))
    case Some(i) => Success(VOLUME_COLUMN_PRIORITY[i])
  }

  /** A file carrying both 'Volume' and 'Volume_(BTC)' uses the BTC-denominated one. */
  lemma BtcVolumePreferred(columns: set<string>)
    requires "Volume_(BTC)" in columns
    ensures PickVolumeColumn(columns) == Success("Volume_(BTC)")
  {
  }

  // ---------------------------------------------------------------------------
  // Download schedule
  // ---------------------------------------------------------------------------

  /** Timestamps are integer milliseconds. */
  const DAY_MS: int := 86_400_000
  /** One download request covers at most 30 days. */
  const BATCH_SPAN_MS: int := 30 * DAY_MS

  /** One request `[lo, hi]` of `get_historical_data_by_batch`. */
  datatype Batch = Batch(lo: int, hi: int)

  predicate Contiguous(bs: seq<Batch>) {
    forall k :: 0 <= k < |bs| - 1 ==> bs[k].hi == bs[k + 1].lo
  }

  /** `min(cursor + 30 days, end)`: where the request starting at `cursor` stops. */
  function NextCut(cursor: int, end: int): (r: int)
    requires cursor < end
    ensures cursor < r <= end && r - cursor <= BATCH_SPAN_MS
    ensures r < end ==> r - cursor == BATCH_SPAN_MS
  {
    if cursor + BATCH_SPAN_MS < end then cursor + BATCH_SPAN_MS else end
  }

  /**
   * The batches whose candles are kept, from `cursor` to `end`. `responds(lo, hi)`
   * says whether the exchange returned any candle for that request; the first
   * empty answer ends the download.
   */
  function Schedule(cursor: int, end: int, responds: (int, int) -> bool): (r: seq<Batch>)
    ensures forall k :: 0 <= k < |r| ==> cursor <= r[k].lo < r[k].hi <= end
    ensures forall k :: 0 <= k < |r| ==> r[k].hi - r[k].lo <= BATCH_SPAN_MS
    ensures |r| > 0 ==> r[0].lo == cursor
    ensures Contiguous(r)
    ensures cursor >= end ==> r == []
    decreases end - cursor
  {
    if cursor >= end then []
    else
      var next := NextCut(cursor, end);
      if !responds(cursor, next) then []
      else [Batch(cursor, next)] + Schedule(next, end, responds)
  }

  /**
   * Every kept batch is a full request that came back with candles, and a
   * download that stops short of `end` stopped at an empty answer.
   */
  lemma {:induction false} ScheduleKeepsAnsweredBatches(cursor: int, end: int, responds: (int, int) -> bool)
    ensures var r := Schedule(cursor, end, responds);
            forall k :: 0 <= k < |r| ==> responds(r[k].lo, r[k].hi) && r[k].hi == NextCut(r[k].lo, end)
    ensures var r := Schedule(cursor, end, responds);
            var last := if |r| == 0 then cursor else r[|r| - 1].hi;
            last < end ==> !responds(last, NextCut(last, end))
    decreases end - cursor
  {
    if cursor < end {
      var next := NextCut(cursor, end);
      if responds(cursor, next) {
        ScheduleKeepsAnsweredBatches(next, end, responds);
        var rest := Schedule(next, end, responds);
        var r := Schedule(cursor, end, responds);
        assert r == [Batch(cursor, next)] + rest;
        forall k | 0 <= k < |r|
          ensures responds(r[k].lo, r[k].hi) && r[k].hi == NextCut(r[k].lo, end)
        {
          if k > 0 {
            assert r[k] == rest[k - 1];
          }
        }
        if |rest| > 0 {
          assert r[|r| - 1] == rest[|rest| - 1];
        }
      }
    }
  }

  /** Number of 30-day batches needed to cover `span` milliseconds, rounding up. */
  function BatchesNeeded(span: int): int
    requires span > 0
  {
    (span + BATCH_SPAN_MS - 1) / BATCH_SPAN_MS
  }

  /**
   * When the exchange answers every request, the batches end exactly at `end`
   * and there are ceil((end - cursor) / 30 days) of them.
   */
  lemma {:induction false} FullScheduleCoversRange(cursor: int, end: int, responds: (int, int) -> bool)
    requires cursor < end
    requires forall lo, hi :: responds(lo, hi)
    ensures var r := Schedule(cursor, end, responds);
            |r| > 0 && r[|r| - 1].hi == end && |r| == BatchesNeeded(end - cursor)
    decreases end - cursor
  {
    var next := NextCut(cursor, end);
    var a := end - cursor + BATCH_SPAN_MS - 1;
    if cursor + BATCH_SPAN_MS < end {
      FullScheduleCoversRange(next, end, responds);
      DivSubOne(a, BATCH_SPAN_MS);
      assert a - BATCH_SPAN_MS == end - next + BATCH_SPAN_MS - 1;
    } else {
      DivUnique(a, BATCH_SPAN_MS, 1, a - BATCH_SPAN_MS);
    }
  }

  // ---------------------------------------------------------------------------
  // Keep-last merge
  // ---------------------------------------------------------------------------

  /** One candle row, indexed by its timestamp. */
  datatype Candle = Candle(ts: int, open: real, high: real, low: real, close: real, volume: real)

  /** Strictly increasing timestamps: sorted and free of duplicates. */
  predicate StrictlyIncreasing(s: seq<Candle>) {
    forall i, j :: 0 <= i < j < |s| ==> s[i].ts < s[j].ts
  }

  function Timestamps(s: seq<Candle>): set<int> {
    set k | 0 <= k < |s| :: s[k].ts
  }

  lemma TimestampsConcat(a: seq<Candle>, b: seq<Candle>)
    ensures Timestamps(a + b) == Timestamps(a) + Timestamps(b)
  {
    var ab := a + b;
    forall t | t in Timestamps(ab) ensures t in Timestamps(a) + Timestamps(b) {
      var k :| 0 <= k < |ab| && ab[k].ts == t;
      if k >= |a| { assert b[k - |a|].ts == t; }
    }
    forall t | t in Timestamps(a) ensures t in Timestamps(ab) {
      var k :| 0 <= k < |a| && a[k].ts == t;
      assert ab[k].ts == t;
    }
    forall t | t in Timestamps(b) ensures t in Timestamps(ab) {
      var k :| 0 <= k < |b| && b[k].ts == t;
      assert ab[|a| + k].ts == t;
    }
  }

  lemma TimestampsCons(s: seq<Candle>)
    requires |s| > 0
    ensures Timestamps(s) == {s[0].ts} + Timestamps(s[1..])
  {
    assert s == [s[0]] + s[1..];
    TimestampsConcat([s[0]], s[1..]);
    assert Timestamps([s[0]]) == {s[0].ts};
  }

  /** Row `k` is the last row carrying its timestamp: `duplicated(keep='last')` keeps it. */
  predicate Survives(rows: seq<Candle>, k: int)
    requires 0 <= k < |rows|
  {
    forall j :: k < j < |rows| ==> rows[j].ts != rows[k].ts
  }

  /** Put a row with a new timestamp into its place in a strictly increasing frame. */
  function Insert(s: seq<Candle>, x: Candle): (r: seq<Candle>)
    requires StrictlyIncreasing(s) && x.ts !in Timestamps(s)
    ensures StrictlyIncreasing(r)
    ensures |r| == |s| + 1
    ensures forall y :: y in r <==> y == x || y in s
    ensures Timestamps(r) == Timestamps(s) + {x.ts}
    decreases |s|
  {
    if |s| == 0 then
      assert [x][0].ts == x.ts;
      [x]
    else
      TimestampsCons(s);
      if x.ts < s[0].ts then
        InsertInFront(s, x);
        [x] + s
      else
        var rest := Insert(s[1..], x);
        InsertBehindHead(s, x, rest);
        [s[0]] + rest
  }

  lemma InsertInFront(s: seq<Candle>, x: Candle)
    requires StrictlyIncreasing(s) && |s| > 0 && x.ts < s[0].ts
    ensures StrictlyIncreasing([x] + s)
    ensures Timestamps([x] + s) == Timestamps(s) + {x.ts}
  {
    var r := [x] + s;
    TimestampsCons(r);
    assert r[1..] == s;
  }

  /** The head stays in front of a strictly increasing rest whose rows all come from behind it. */
  lemma InsertBehindHead(s: seq<Candle>, x: Candle, rest: seq<Candle>)
    requires StrictlyIncreasing(s) && |s| > 0 && s[0].ts < x.ts
    requires StrictlyIncreasing(rest)
    requires forall y :: y in rest <==> y == x || y in s[1..]
    requires Timestamps(rest) == Timestamps(s[1..]) + {x.ts}
    ensures StrictlyIncreasing([s[0]] + rest)
    ensures Timestamps([s[0]] + rest) == Timestamps(s) + {x.ts}
  {
    var r := [s[0]] + rest;
    forall j | 0 <= j < |rest|
      ensures s[0].ts < rest[j].ts
    {
      assert rest[j] in rest;
      if rest[j] != x {
        var k :| 0 <= k < |s[1..]| && s[1..][k] == rest[j];
        assert s[k + 1] == rest[j];
      }
    }
    TimestampsCons(r);
    TimestampsCons(s);
    assert r[1..] == rest;
  }

  /**
   * `df.loc[~df.index.duplicated(keep='last')]` followed by `sort_index()`:
   * one row per timestamp, the last one carrying it, in timestamp order.
   */
  function DedupeKeepLast(rows: seq<Candle>): (r: seq<Candle>)
    ensures StrictlyIncreasing(r)
    ensures Timestamps(r) == Timestamps(rows)
    decreases |rows|
  {
    if |rows| == 0 then []
    else
      var rest := DedupeKeepLast(rows[1..]);
      TimestampsCons(rows);
      if rows[0].ts in Timestamps(rest) then rest else Insert(rest, rows[0])
  }

  /** Exactly the surviving rows are kept: a row is in the result iff no later row shares its timestamp. */
  lemma {:induction false} DedupeKeepsExactlySurvivors(rows: seq<Candle>)
    ensures forall y :: y in DedupeKeepLast(rows) <==>
                          exists k :: 0 <= k < |rows| && rows[k] == y && Survives(rows, k)
    decreases |rows|
  {
    if |rows| > 0 {
      var tail := rows[1..];
      var rest := DedupeKeepLast(tail);
      DedupeKeepsExactlySurvivors(tail);
      var r := DedupeKeepLast(rows);
      assert Survives(rows, 0) <==> rows[0].ts !in Timestamps(tail) by {
        if !Survives(rows, 0) {
          var j :| 0 < j < |rows| && rows[j].ts == rows[0].ts;
          assert tail[j - 1].ts == rows[0].ts;
        }
        if rows[0].ts in Timestamps(tail) {
          var j :| 0 <= j < |tail| && tail[j].ts == rows[0].ts;
          assert rows[j + 1].ts == rows[0].ts;
        }
      }
      forall k | 1 <= k < |rows| ensures Survives(rows, k) <==> Survives(tail, k - 1) {
        if !Survives(rows, k) {
          var j :| k < j < |rows| && rows[j].ts == rows[k].ts;
          assert tail[j - 1].ts == tail[k - 1].ts;
        }
        if !Survives(tail, k - 1) {
          var j :| k - 1 < j < |tail| && tail[j].ts == tail[k - 1].ts;
          assert rows[j + 1].ts == rows[k].ts;
        }
      }
      forall y ensures y in r <==> exists k :: 0 <= k < |rows| && rows[k] == y && Survives(rows, k) {
        if y in r {
          if y in rest {
            var k :| 0 <= k < |tail| && tail[k] == y && Survives(tail, k);
            assert rows[k + 1] == y && Survives(rows, k + 1);
          } else {
            assert y == rows[0] && Survives(rows, 0);
          }
        }
        if exists k :: 0 <= k < |rows| && rows[k] == y && Survives(rows, k) {
          var k :| 0 <= k < |rows| && rows[k] == y && Survives(rows, k);
          if k == 0 {
            assert y in r;
          } else {
            assert tail[k - 1] == y && Survives(tail, k - 1);
            assert y in rest;
          }
        }
      }
    }
  }

  /**
   * The update of a stored frame (`pd.concat([df, df_new])` then the keep-last
   * dedupe and sort): strictly increasing, covering both frames' timestamps.
   */
  function MergeFrames(stored: seq<Candle>, incoming: seq<Candle>): (r: seq<Candle>)
    ensures StrictlyIncreasing(r)
    ensures Timestamps(r) == Timestamps(stored) + Timestamps(incoming)
  {
    TimestampsConcat(stored, incoming);
    DedupeKeepLast(stored + incoming)
  }

  /**
   * New data wins: a stored row whose timestamp is downloaded again is
   * dropped, and the last downloaded row of each timestamp is kept.
   */
  lemma FreshDataWins(stored: seq<Candle>, incoming: seq<Candle>, k: nat)
    requires k < |incoming| && Survives(incoming, k)
    ensures incoming[k] in MergeFrames(stored, incoming)
    ensures forall y :: y in MergeFrames(stored, incoming) && y.ts == incoming[k].ts ==> y == incoming[k]
  {
    var all := stored + incoming;
    var r := MergeFrames(stored, incoming);
    DedupeKeepsExactlySurvivors(all);
    var i := |stored| + k;
    assert all[i] == incoming[k];
    assert Survives(all, i) by {
      forall j | i < j < |all| ensures all[j].ts != all[i].ts {
        assert all[j] == incoming[j - |stored|];
      }
    }
    forall y | y in r && y.ts == incoming[k].ts ensures y == incoming[k] {
      var m :| 0 <= m < |all| && all[m] == y && Survives(all, m);
    }
  }
}
