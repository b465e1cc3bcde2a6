/**
 The export evidence of a read window: one row a request accepted, then the terminal flush.
 */
module ReadExports {
  import opened Results
  import opened Quantiles

  datatype Export = Export(window: int, ordinal: int, terminal: string, queue: int, flush: int)

  /** What a window recorded of its export requests. */
  datatype Requests = Requests(window: int, elapsed: int, requests: int, accepted: int, failed: int, completed: int)

  datatype ExportReport = ExportReport(queueWait: Distribution, flush: Distribution, failed: int)

  function Select(rows: seq<Export>, terminal: string): seq<Export> {
    if rows == [] then []
    else
      var last := rows[|rows| - 1];
      Select(rows[..|rows| - 1], terminal) + if last.terminal == terminal then [last] else []
  }

  function Ordinals(rows: seq<Export>): (ordinals: seq<int>)
    ensures |ordinals| == |rows|
  {
    seq(|rows|, i requires 0 <= i < |rows| => rows[i].ordinal)
  }

  predicate CheckAccounts(w: Requests) {
    && w.requests == w.accepted + w.failed && w.completed == w.accepted
    && 0 < w.requests <= (w.elapsed + 999_999) / 1_000_000
  }

  predicate CheckRow(row: Export, w: Requests) {
    row.terminal in {"true", "false"} && row.window == w.window && row.queue >= 0 && row.flush >= 0
  }

  // ----- what the evidence must be

  /** Every request was accepted and completed or failed, and no second of the window made two. */
  predicate Accounted(w: Requests) {
    && w.failed == w.requests - w.completed && w.completed == w.accepted
    && 1 <= w.requests && (w.requests - 1) * 1_000_000 < w.elapsed
  }

  lemma AccountsMean(w: Requests)
    ensures CheckAccounts(w) <==> Accounted(w)
  {
  }

  /** Of this window, with times that are not negative. */
  predicate Recorded(row: Export, w: Requests) {
    w.window == row.window && 0 <= row.queue && 0 <= row.flush
  }

  predicate Periodic(row: Export, requests: int) {
    row.terminal == "false" && 1 <= row.ordinal <= requests
  }

  /** One row a request accepted, in the order asked, and the terminal flush after them all. */
  ghost predicate ExportsOk(w: Requests, rows: seq<Export>) {
    && Accounted(w) && |rows| == w.accepted + 1
    && (forall i :: 0 <= i < |rows| - 1 ==> Periodic(rows[i], w.requests))
    && (forall i, j :: 0 <= i < j < |rows| - 1 ==> rows[i].ordinal < rows[j].ordinal)
    && rows != [] && rows[|rows| - 1].terminal == "true" && rows[|rows| - 1].ordinal == 0
    && (forall i :: 0 <= i < |rows| ==> Recorded(rows[i], w))
  }

  // ----- telling the terminal row from the others

  lemma {:induction false} AllSelected(rows: seq<Export>, terminal: string)
    requires forall i :: 0 <= i < |rows| ==> rows[i].terminal == terminal
    ensures Select(rows, terminal) == rows
    ensures terminal != "true" ==> Select(rows, "true") == []
    decreases |rows|
  {
    if rows != [] {
      AllSelected(rows[..|rows| - 1], terminal);
    }
  }

  lemma {:induction false} NoneSelected(rows: seq<Export>, terminal: string)
    ensures Select(rows, terminal) == [] <==> forall i :: 0 <= i < |rows| ==> rows[i].terminal != terminal
    decreases |rows|
  {
    if rows != [] {
      var n := |rows| - 1;
      NoneSelected(rows[..n], terminal);
      assert forall i :: 0 <= i < n ==> rows[..n][i] == rows[i];
    }
  }

  /** One terminal row and it is the last, exactly if the rows before it are the periodic ones. */
  lemma {:induction false} TerminalIsLast(rows: seq<Export>)
    requires rows != [] && forall i :: 0 <= i < |rows| ==> rows[i].terminal in {"true", "false"}
    ensures |Select(rows, "true")| == 1 && Select(rows, "true")[0] == rows[|rows| - 1] <==>
            rows[|rows| - 1].terminal == "true" && Select(rows, "false") == rows[..|rows| - 1]
  {
    var n := |rows| - 1;
    NoneSelected(rows[..n], "true");
    if rows[n].terminal == "true" {
      if Select(rows[..n], "true") == [] {
        AllSelected(rows[..n], "false");
      } else if Select(rows[..n], "false") == rows[..n] {
        NoneSelected(rows[..n], "true");
        SelectedAgree(rows[..n]);
      }
    } else if |Select(rows, "true")| == 1 {
      SelectedAre(rows, "true", 0);
    }
  }

  lemma {:induction false} SelectedAre(rows: seq<Export>, terminal: string, i: nat)
    requires i < |Select(rows, terminal)|
    ensures Select(rows, terminal)[i].terminal == terminal
    decreases |rows|
  {
    var n := |rows| - 1;
    if i < |Select(rows[..n], terminal)| {
      SelectedAre(rows[..n], terminal, i);
    }
  }

  lemma {:induction false} SelectedAgree(rows: seq<Export>)
    requires Select(rows, "false") == rows
    ensures Select(rows, "true") == []
  {
    forall i | 0 <= i < |rows|
      ensures rows[i].terminal == "false"
    {
      SelectedAre(rows, "false", i);
    }
    AllSelected(rows, "false");
  }

  // ----- rising ordinals

  ghost predicate Within(a: seq<int>, b: seq<int>) {
    forall i :: 0 <= i < |a| ==> a[i] in b
  }

  lemma RestWithin(a: seq<int>, b: seq<int>)
    requires a != [] && b != [] && Strict(a) && Within(a, b) && a[|a| - 1] == b[|b| - 1]
    ensures Within(a[..|a| - 1], b[..|b| - 1])
  {
    var m := |b| - 1;
    forall i | 0 <= i < |a| - 1
      ensures a[i] in b[..m]
    {
      var j :| 0 <= j < |b| && b[j] == a[i];
      assert b[..m][j] == a[i];
    }
  }

  /** A set has only one strictly rising arrangement. */
  lemma {:induction false} StrictIsUnique(a: seq<int>, b: seq<int>)
    requires Strict(a) && Strict(b) && Within(a, b) && Within(b, a)
    ensures a == b
    decreases |a|
  {
    if a == [] {
      assert b == [];
    } else {
      assert a[|a| - 1] in b && b[|b| - 1] in a;
      RestWithin(a, b);
      RestWithin(b, a);
      StrictIsUnique(a[..|a| - 1], b[..|b| - 1]);
    }
  }

  /** Whether a list is its own sorted set of values. */
  method IsSortedSet(ordinals: seq<int>) returns (ok: bool)
    ensures ok <==> Strict(ordinals)
  {
    var keys := SortedKeys(set x | x in ordinals);
    if Strict(ordinals) {
      StrictIsUnique(keys, ordinals);
    }
    ok := ordinals == keys;
  }

  // ----- the check

  /** What the filters and the list of ordinals are compared with. */
  predicate Selected(w: Requests, rows: seq<Export>) {
    var periodic, terminal := Select(rows, "false"), Select(rows, "true");
    && |periodic| == w.accepted && |terminal| == 1
    && Strict(Ordinals(periodic))
    && (forall i :: 0 <= i < |periodic| ==> 1 <= periodic[i].ordinal <= w.requests)
    && rows != [] && rows[|rows| - 1] == terminal[0] && terminal[0].ordinal == 0
    && (forall i :: 0 <= i < |rows| ==> CheckRow(rows[i], w))
  }

  lemma SelectedAreOk(w: Requests, rows: seq<Export>)
    requires Accounted(w) && Selected(w, rows)
    ensures ExportsOk(w, rows)
  {
    TerminalIsLast(rows);
    var n := |rows| - 1;
    var periodic := Select(rows, "false");
    forall i | 0 <= i < n
      ensures Periodic(rows[i], w.requests)
    {
      SelectedAre(rows, "false", i);
      assert rows[i] == periodic[i];
    }
    forall i, j | 0 <= i < j < n
      ensures rows[i].ordinal < rows[j].ordinal
    {
      assert Ordinals(periodic)[i] < Ordinals(periodic)[j];
    }
  }

  lemma OkAreSelected(w: Requests, rows: seq<Export>)
    requires ExportsOk(w, rows)
    ensures Selected(w, rows)
  {
    var n := |rows| - 1;
    assert forall i :: 0 <= i < n ==> Periodic(rows[i], w.requests);
    LastSelected(rows);
    assert Strict(Ordinals(rows[..n]));
    forall i | 0 <= i < |rows|
      ensures CheckRow(rows[i], w)
    {
      assert Recorded(rows[i], w) && (i < n ==> Periodic(rows[i], w.requests));
    }
  }

  /** Periodic rows and one terminal row after them are told apart. */
  lemma {:induction false} LastSelected(rows: seq<Export>)
    requires rows != [] && rows[|rows| - 1].terminal == "true"
    requires forall i :: 0 <= i < |rows| - 1 ==> rows[i].terminal == "false"
    ensures Select(rows, "false") == rows[..|rows| - 1] && Select(rows, "true") == [rows[|rows| - 1]]
  {
    AllSelected(rows[..|rows| - 1], "false");
  }

  lemma SelectedMeansOk(w: Requests, rows: seq<Export>)
    requires Accounted(w)
    ensures Selected(w, rows) <==> ExportsOk(w, rows)
  {
    if Selected(w, rows) {
      SelectedAreOk(w, rows);
    }
    if ExportsOk(w, rows) {
      OkAreSelected(w, rows);
    }
  }

  method VerifyExports(w: Requests, rows: seq<Export>) returns (r: Result<ExportReport>)
    ensures r.Ok? <==> ExportsOk(w, rows)
    ensures r.Ok? ==> r.value.failed == w.failed
                      && r.value.queueWait == DistributionOf(seq(|rows|, i requires 0 <= i < |rows| => rows[i].queue))
                      && r.value.flush == DistributionOf(seq(|rows|, i requires 0 <= i < |rows| => rows[i].flush))
  {
    AccountsMean(w);
    if !CheckAccounts(w) {
      return Err;
    }
    SelectedMeansOk(w, rows);
    var periodic, terminal := Select(rows, "false"), Select(rows, "true");
    if |periodic| != w.accepted || |terminal| != 1 {
      return Err;
    }
    var rising := IsSortedSet(Ordinals(periodic));
    if !rising || exists i :: 0 <= i < |periodic| && !(1 <= periodic[i].ordinal <= w.requests) {
      return Err;
    }
    NoneSelected(rows, "true");
    if rows[|rows| - 1] != terminal[0] || terminal[0].ordinal != 0 {
      return Err;
    }
    if exists i :: 0 <= i < |rows| && !CheckRow(rows[i], w) {
      return Err;
    }
    r := Ok(ExportReport(DistributionOf(Queues(rows)), DistributionOf(Flushes(rows)), w.failed));
  }

  function Queues(rows: seq<Export>): seq<int> {
    seq(|rows|, i requires 0 <= i < |rows| => rows[i].queue)
  }

  function Flushes(rows: seq<Export>): seq<int> {
    seq(|rows|, i requires 0 <= i < |rows| => rows[i].flush)
  }

  // ----- what accepted evidence shows

  ghost function Upto(n: nat): (s: set<int>)
    ensures forall k :: k in s <==> 1 <= k <= n
    ensures |s| == n
  {
    if n == 0 then {} else Upto(n - 1) + {n}
  }

  /** The ordinals that the periodic rows name. */
  ghost function Answered(rows: seq<Export>): set<int> {
    set i | 0 <= i < |rows| - 1 :: rows[i].ordinal
  }

  lemma {:induction false} RisingCounted(rows: seq<Export>, n: nat)
    requires n < |rows| && forall i, j :: 0 <= i < j < |rows| - 1 ==> rows[i].ordinal < rows[j].ordinal
    ensures |set i | 0 <= i < n :: rows[i].ordinal| == n
    decreases n
  {
    if n > 0 {
      RisingCounted(rows, n - 1);
      var before := set i | 0 <= i < n - 1 :: rows[i].ordinal;
      assert (set i | 0 <= i < n :: rows[i].ordinal) == before + {rows[n - 1].ordinal};
      assert rows[n - 1].ordinal !in before;
    }
  }

  /** The requests that no row answers are exactly as many as were recorded as failed. */
  lemma UnansweredAreFailed(w: Requests, rows: seq<Export>)
    requires ExportsOk(w, rows)
    ensures Answered(rows) <= Upto(w.requests) && |Upto(w.requests) - Answered(rows)| == w.failed
  {
    var n := |rows| - 1;
    RisingCounted(rows, n);
    forall k | k in Answered(rows)
      ensures k in Upto(w.requests)
    {
      var i :| 0 <= i < n && rows[i].ordinal == k;
      assert Periodic(rows[i], w.requests);
    }
    assert |Upto(w.requests)| == |Upto(w.requests) - Answered(rows)| + |Answered(rows)|;
  }

  /** The rows of one window, in order. */
  function OfWindow(exports: seq<Export>, window: int): seq<Export> {
    if exports == [] then []
    else
      var last := exports[|exports| - 1];
      OfWindow(exports[..|exports| - 1], window) + if last.window == window then [last] else []
  }

  ghost function TotalOf(exports: seq<Export>, windows: nat): nat {
    if windows == 0 then 0 else TotalOf(exports, windows - 1) + |OfWindow(exports, windows - 1)|
  }

  lemma {:induction false} LastIsCounted(exports: seq<Export>, windows: nat)
    requires exports != []
    ensures TotalOf(exports, windows) ==
            TotalOf(exports[..|exports| - 1], windows) + if 0 <= exports[|exports| - 1].window < windows then 1 else 0
    decreases windows
  {
    if windows > 0 {
      LastIsCounted(exports, windows - 1);
    }
  }

  /** Rows that name planned windows only are divided among them without loss. */
  lemma {:induction false} DividedByWindow(exports: seq<Export>, windows: nat)
    requires forall i :: 0 <= i < |exports| ==> 0 <= exports[i].window < windows
    ensures TotalOf(exports, windows) == |exports|
    decreases |exports|
  {
    if exports == [] {
      NoneToDivide(windows);
    } else {
      DividedByWindow(exports[..|exports| - 1], windows);
      LastIsCounted(exports, windows);
    }
  }

  lemma {:induction false} NoneToDivide(windows: nat)
    ensures TotalOf([], windows) == 0
    decreases windows
  {
    if windows > 0 {
      NoneToDivide(windows - 1);
    }
  }
}
