/**
 * The report built from `all_data`: the frame whose every cell is the
 * printable part of the value's string form, and the vendor analytics,
 * `value_counts()` of that frame's `vendor` column.
 *
 * Python's `str()` of a cell and `str.isprintable()` of a character are
 * parameters (`render`, `isPrintable`): the model does not fix them.
 */
module Report {

  import opened Wrappers
  import opened JsonValues
  import opened Fetch

  // ---------------------------------------------------------------------
  // Printable cleaning: ''.join(ch for ch in str(x) if ch.isprintable())
  // ---------------------------------------------------------------------

  /** The printable characters of `s`, in order. */
  function Clean(isPrintable: char -> bool, s: string): (r: string)
    ensures |r| <= |s|
    ensures forall k :: 0 <= k < |r| ==> isPrintable(r[k])
  {
    if s == [] then []
    else (if isPrintable(s[0]) then [s[0]] else []) + Clean(isPrintable, s[1..])
  }

  /** `a` can be obtained from `b` by deleting characters. */
  predicate IsSubsequence(a: string, b: string)
    decreases |b|
  {
    if a == [] then true
    else if b == [] then false
    else if a[0] == b[0] then IsSubsequence(a[1..], b[1..])
    else IsSubsequence(a, b[1..])
  }

  /** Cleaning only deletes characters: its result is a subsequence of the input. */
  lemma {:induction false} CleanIsSubsequence(isPrintable: char -> bool, s: string)
    ensures IsSubsequence(Clean(isPrintable, s), s)
  {
    if s != [] {
      CleanIsSubsequence(isPrintable, s[1..]);
      var rest := Clean(isPrintable, s[1..]);
      if isPrintable(s[0]) {
        assert Clean(isPrintable, s) == [s[0]] + rest;
        assert ([s[0]] + rest)[1..] == rest;
      } else {
        assert Clean(isPrintable, s) == rest;
        if rest != [] {
          assert isPrintable(rest[0]);
        }
      }
    }
  }

  /** Every printable character survives as often as it occurs; no other character survives. */
  lemma {:induction false} CleanKeepsExactlyThePrintable(isPrintable: char -> bool, s: string, c: char)
    ensures multiset(Clean(isPrintable, s))[c] == if isPrintable(c) then multiset(s)[c] else 0
  {
    if s != [] {
      CleanKeepsExactlyThePrintable(isPrintable, s[1..], c);
      assert s == [s[0]] + s[1..];
    }
  }

  /** A string of printable characters is left as it is. */
  lemma {:induction false} CleanFixesPrintable(isPrintable: char -> bool, s: string)
    requires forall k :: 0 <= k < |s| ==> isPrintable(s[k])
    ensures Clean(isPrintable, s) == s
  {
    if s != [] {
      CleanFixesPrintable(isPrintable, s[1..]);
    }
  }

  /** Cleaning twice is cleaning once. */
  lemma {:induction false} CleanIdempotent(isPrintable: char -> bool, s: string)
    ensures Clean(isPrintable, Clean(isPrintable, s)) == Clean(isPrintable, s)
  {
    CleanFixesPrintable(isPrintable, Clean(isPrintable, s));
  }

  // ---------------------------------------------------------------------
  // The cleaned frame: pd.DataFrame(all_data).applymap(...)
  // ---------------------------------------------------------------------

  /**
   * The string form `str(x)` of a cell, given every value of the cell's
   * column and the cell's own value. `pd.DataFrame` picks each column's
   * dtype from all of its values, and the dtype decides the string: a
   * number column with a null in it holds floats and `nan`, a column of
   * strings and nulls keeps `None`.
   */
  type Render = (seq<Json>, Json) -> string

  /** A frame of string cells: its column labels and its rows. */
  datatype Frame = Frame(columns: seq<string>, rows: seq<seq<string>>)

  /** The values of column `j`, one per record, in record order. */
  function ColumnValues(records: seq<PackageRecord>, j: nat): (values: seq<Json>)
    requires j < |RecordKeys|
    ensures |values| == |records|
  {
    seq(|records|, i requires 0 <= i < |records| => Cells(records[i])[j])
  }

  /** The cell of record `i` in column `j`: the printable part of its string form. */
  function CleanCell(render: Render, isPrintable: char -> bool, records: seq<PackageRecord>, i: nat, j: nat): string
    requires i < |records| && j < |RecordKeys|
  {
    Clean(isPrintable, render(ColumnValues(records, j), Cells(records[i])[j]))
  }

  /** The row of record `i`. */
  function CleanRow(render: Render, isPrintable: char -> bool, records: seq<PackageRecord>, i: nat): seq<string>
    requires i < |records|
  {
    seq(|RecordKeys|, j requires 0 <= j < |RecordKeys| => CleanCell(render, isPrintable, records, i, j))
  }

  /**
   * The frame written to the spreadsheet. Its columns are the keys of the
   * records in their first-seen order, so a frame built from no records
   * has no columns at all.
   */
  function CleanedFrame(render: Render, isPrintable: char -> bool, records: seq<PackageRecord>): (f: Frame)
    ensures records == [] ==> f.columns == [] && f.rows == []
    ensures records != [] ==> f.columns == RecordKeys
    ensures |f.rows| == |records|
    ensures forall i :: 0 <= i < |records| ==> |f.rows[i]| == |RecordKeys|
    ensures forall i, j :: 0 <= i < |records| && 0 <= j < |RecordKeys| ==>
      |f.rows[i][j]| <= |render(ColumnValues(records, j), Cells(records[i])[j])|
  {
    Frame(
      if records == [] then [] else RecordKeys,
      seq(|records|, i requires 0 <= i < |records| => CleanRow(render, isPrintable, records, i)))
  }

  /**
   * One row per record, one cell per column, each cell the printable
   * characters of the rendered value; cleaning a cell again changes nothing.
   */
  lemma CleanedFrameShape(render: Render, isPrintable: char -> bool, records: seq<PackageRecord>,
                          i: nat, j: nat)
    requires i < |records| && j < |RecordKeys|
    ensures var f := CleanedFrame(render, isPrintable, records);
      && f.columns == RecordKeys
      && |f.rows| == |records|
      && |f.rows[i]| == |f.columns|
      && f.rows[i][j] == Clean(isPrintable, render(ColumnValues(records, j), Cells(records[i])[j]))
      && IsSubsequence(f.rows[i][j], render(ColumnValues(records, j), Cells(records[i])[j]))
      && Clean(isPrintable, f.rows[i][j]) == f.rows[i][j]
  {
    CleanIsSubsequence(isPrintable, render(ColumnValues(records, j), Cells(records[i])[j]));
    CleanIdempotent(isPrintable, render(ColumnValues(records, j), Cells(records[i])[j]));
  }

  /** The position of the first column labelled `name`, if any. */
  function ColumnIndex(columns: seq<string>, name: string): (r: Option<nat>)
    ensures r.Some? ==> r.value < |columns| && columns[r.value] == name && name !in columns[..r.value]
    ensures r.None? ==> name !in columns
  {
    if columns == [] then None
    else if columns[0] == name then Some(0)
    else match ColumnIndex(columns[1..], name)
      case None => None
      case Some(j) => Some(j + 1)
  }

  // ---------------------------------------------------------------------
  // Vendor counting: df["vendor"].value_counts()
  // ---------------------------------------------------------------------

  /** One entry of the vendor table. */
  datatype VendorCount = VendorCount(vendor: string, count: nat)

  /** The vendors that have an entry. */
  function Vendors(t: seq<VendorCount>): set<string>
  {
    if t == [] then {} else {t[0].vendor} + Vendors(t[1..])
  }

  /** No vendor has two entries. */
  predicate Distinct(t: seq<VendorCount>)
  {
    t == [] || (t[0].vendor !in Vendors(t[1..]) && Distinct(t[1..]))
  }

  /** The count listed for `v`, 0 when `v` has no entry. */
  function CountIn(t: seq<VendorCount>, v: string): nat
  {
    if t == [] then 0 else if t[0].vendor == v then t[0].count else CountIn(t[1..], v)
  }

  /** The sum of the counts. */
  function Total(t: seq<VendorCount>): nat
  {
    if t == [] then 0 else t[0].count + Total(t[1..])
  }

  /** Counts never grow along the table. */
  predicate NonIncreasing(t: seq<VendorCount>)
  {
    forall i, j :: 0 <= i < j < |t| ==> t[i].count >= t[j].count
  }

  /** One more occurrence of `v`: its count goes up by one, or it gets an entry at the end. */
  function Bump(t: seq<VendorCount>, v: string): seq<VendorCount>
  {
    if t == [] then [VendorCount(v, 1)]
    else if t[0].vendor == v then [VendorCount(v, t[0].count + 1)] + t[1..]
    else [t[0]] + Bump(t[1..], v)
  }

  /** The occurrence counts of the column's values, in order of first occurrence. */
  function Tally(column: seq<string>): seq<VendorCount>
  {
    if column == [] then [] else Bump(Tally(column[..|column| - 1]), column[|column| - 1])
  }

  /** Places `e` before the first entry whose count is not larger than its own. */
  function Insert(e: VendorCount, t: seq<VendorCount>): seq<VendorCount>
  {
    if t == [] || e.count >= t[0].count then [e] + t else [t[0]] + Insert(e, t[1..])
  }

  /** Insertion sort by count, largest first. */
  function SortByCount(t: seq<VendorCount>): seq<VendorCount>
  {
    if t == [] then [] else Insert(t[0], SortByCount(t[1..]))
  }

  /** `value_counts()` of a column of strings. */
  function ValueCounts(column: seq<string>): (r: seq<VendorCount>)
    ensures NonIncreasing(r) && Distinct(r)
    ensures Total(r) == |column|
    ensures Vendors(r) == set v | v in column
  {
    TallyCounts(column);
    SortByCountKeeps(Tally(column));
    SortByCount(Tally(column))
  }

  lemma {:induction false} BumpCounts(t: seq<VendorCount>, v: string)
    ensures Vendors(Bump(t, v)) == Vendors(t) + {v}
    ensures Distinct(t) ==> Distinct(Bump(t, v))
    ensures Total(Bump(t, v)) == Total(t) + 1
    ensures forall k :: CountIn(Bump(t, v), k) == CountIn(t, k) + (if k == v then 1 else 0)
  {
    if t != [] && t[0].vendor != v {
      BumpCounts(t[1..], v);
      assert Bump(t, v)[1..] == Bump(t[1..], v);
    } else if t != [] {
      assert Bump(t, v)[1..] == t[1..];
    }
  }

  /** The tally has one entry per distinct value, holding the number of its occurrences. */
  lemma {:induction false} TallyCounts(column: seq<string>)
    ensures Distinct(Tally(column))
    ensures Vendors(Tally(column)) == set v | v in column
    ensures Total(Tally(column)) == |column|
    ensures forall k :: CountIn(Tally(column), k) == multiset(column)[k]
  {
    if column != [] {
      var init, last := column[..|column| - 1], column[|column| - 1];
      assert column == init + [last];
      TallyCounts(init);
      BumpCounts(Tally(init), last);
      assert (set v | v in column) == (set v | v in init) + {last};
    }
  }

  lemma {:induction false} InsertBag(e: VendorCount, t: seq<VendorCount>)
    ensures |Insert(e, t)| == |t| + 1
    ensures multiset(Insert(e, t)) == multiset(t) + multiset{e}
  {
    if t != [] && e.count < t[0].count {
      InsertBag(e, t[1..]);
      assert t == [t[0]] + t[1..];
    }
  }

  lemma {:induction false} InsertKeeps(e: VendorCount, t: seq<VendorCount>)
    ensures Vendors(Insert(e, t)) == Vendors(t) + {e.vendor}
    ensures Total(Insert(e, t)) == Total(t) + e.count
    ensures e.vendor !in Vendors(t) ==>
      forall k :: CountIn(Insert(e, t), k) == if k == e.vendor then e.count else CountIn(t, k)
  {
    if t != [] && e.count < t[0].count {
      InsertKeeps(e, t[1..]);
      assert Insert(e, t)[1..] == Insert(e, t[1..]);
    }
  }

  lemma {:induction false} InsertDistinct(e: VendorCount, t: seq<VendorCount>)
    requires Distinct(t) && e.vendor !in Vendors(t)
    ensures Distinct(Insert(e, t))
  {
    if t != [] && e.count < t[0].count {
      InsertDistinct(e, t[1..]);
      InsertKeeps(e, t[1..]);
      assert Insert(e, t)[1..] == Insert(e, t[1..]);
    }
  }

  lemma {:induction false} InsertSorted(e: VendorCount, t: seq<VendorCount>)
    requires NonIncreasing(t)
    ensures NonIncreasing(Insert(e, t))
  {
    if t != [] && e.count < t[0].count {
      var rest := Insert(e, t[1..]);
      InsertSorted(e, t[1..]);
      InsertBag(e, t[1..]);
      forall j | 0 <= j < |rest|
        ensures t[0].count >= rest[j].count
      {
        assert rest[j] in multiset(rest);
        if rest[j] != e {
          assert rest[j] in multiset(t[1..]);
          var m :| 0 <= m < |t[1..]| && t[1..][m] == rest[j];
          assert t[m + 1] == rest[j];
        }
      }
      assert Insert(e, t) == [t[0]] + rest;
    }
  }

  /** Sorting rearranges the entries into non-increasing count order and keeps what they say. */
  lemma {:induction false} SortByCountKeeps(t: seq<VendorCount>)
    ensures NonIncreasing(SortByCount(t))
    ensures multiset(SortByCount(t)) == multiset(t)
    ensures Vendors(SortByCount(t)) == Vendors(t)
    ensures Total(SortByCount(t)) == Total(t)
    ensures Distinct(t) ==> Distinct(SortByCount(t))
    ensures Distinct(t) ==> forall k :: CountIn(SortByCount(t), k) == CountIn(t, k)
  {
    if t != [] {
      var rest := SortByCount(t[1..]);
      SortByCountKeeps(t[1..]);
      InsertBag(t[0], rest);
      InsertKeeps(t[0], rest);
      InsertSorted(t[0], rest);
      if Distinct(t) {
        InsertDistinct(t[0], rest);
      }
      assert t == [t[0]] + t[1..];
    }
  }

  lemma {:induction false} VendorsMembers(t: seq<VendorCount>, v: string)
    ensures v in Vendors(t) <==> exists i :: 0 <= i < |t| && t[i].vendor == v
  {
    if t != [] {
      VendorsMembers(t[1..], v);
      if exists i :: 0 <= i < |t| && t[i].vendor == v {
        var i :| 0 <= i < |t| && t[i].vendor == v;
        if i > 0 {
          assert t[1..][i - 1].vendor == v;
        }
      }
      if exists i :: 0 <= i < |t[1..]| && t[1..][i].vendor == v {
        var i :| 0 <= i < |t[1..]| && t[1..][i].vendor == v;
        assert t[i + 1].vendor == v;
      }
    }
  }

  /** In a table without repeated vendors, each entry's count is the one `CountIn` finds, and no vendor repeats. */
  lemma {:induction false} DistinctEntries(t: seq<VendorCount>)
    requires Distinct(t)
    ensures forall i :: 0 <= i < |t| ==> CountIn(t, t[i].vendor) == t[i].count
    ensures forall i, j :: 0 <= i < j < |t| ==> t[i].vendor != t[j].vendor
  {
    if t != [] {
      DistinctEntries(t[1..]);
      forall i | 0 < i < |t|
        ensures t[i].vendor != t[0].vendor
      {
        VendorsMembers(t[1..], t[i].vendor);
        assert t[1..][i - 1] == t[i];
      }
      forall i | 0 < i < |t|
        ensures CountIn(t, t[i].vendor) == t[i].count
      {
        assert t[1..][i - 1] == t[i];
      }
      forall i, j | 0 < i < j < |t|
        ensures t[i].vendor != t[j].vendor
      {
        assert t[1..][i - 1] == t[i] && t[1..][j - 1] == t[j];
      }
    }
  }

  /**
   * `value_counts()`: one entry per distinct value of the column, each
   * holding the number of rows with that value; the counts add up to the
   * number of rows and never increase along the table.
   */
  lemma ValueCountsCorrect(column: seq<string>)
    ensures var r := ValueCounts(column);
      && (forall i, j :: 0 <= i < j < |r| ==> r[i].count >= r[j].count)
      && (forall i, j :: 0 <= i < j < |r| ==> r[i].vendor != r[j].vendor)
      && (forall i :: 0 <= i < |r| ==> r[i].vendor in column && r[i].count == multiset(column)[r[i].vendor])
      && (forall v :: v in column ==> exists i :: 0 <= i < |r| && r[i].vendor == v)
      && Total(r) == |column|
  {
    var r := ValueCounts(column);
    TallyCounts(column);
    SortByCountKeeps(Tally(column));
    DistinctEntries(r);
    forall i | 0 <= i < |r|
      ensures r[i].vendor in column
    {
      VendorsMembers(r, r[i].vendor);
    }
    forall v | v in column
      ensures exists i :: 0 <= i < |r| && r[i].vendor == v
    {
      VendorsMembers(r, v);
    }
  }

  /** A four-row example: the vendors `"Acme", "Acme", None, "Beta"`, with the null already turned into `"None"`. */
  lemma ValueCountsExample()
    ensures ValueCounts(["Acme", "Acme", "None", "Beta"])
         == [VendorCount("Acme", 2), VendorCount("None", 1), VendorCount("Beta", 1)]
  {
    var acme2, none1, beta1 := VendorCount("Acme", 2), VendorCount("None", 1), VendorCount("Beta", 1);
    var column := ["Acme", "Acme", "None", "Beta"];
    assert ["Acme"][..0] == [];
    assert Tally(["Acme"]) == [VendorCount("Acme", 1)];
    assert ["Acme", "Acme"][..1] == ["Acme"];
    assert Tally(["Acme", "Acme"]) == [acme2];
    assert column[..3][..2] == ["Acme", "Acme"];
    assert [acme2][1..] == [];
    assert "Acme"[0] != "None"[0] && "Acme"[0] != "Beta"[0] && "None"[0] != "Beta"[0];
    assert Bump([acme2], "None") == [acme2, none1];
    assert Tally(column[..3]) == [acme2, none1];
    assert column[..3] == ["Acme", "Acme", "None"];
    assert [acme2, none1][1..] == [none1] && [none1][1..] == [];
    assert Bump([none1], "Beta") == [none1, beta1];
    assert Bump([acme2, none1], "Beta") == [acme2] + Bump([none1], "Beta");
    assert Tally(column) == [acme2, none1, beta1];
    assert SortByCount([beta1]) == [beta1];
    assert [none1, beta1][1..] == [beta1];
    assert SortByCount([none1, beta1]) == [none1, beta1];
    assert [acme2, none1, beta1][1..] == [none1, beta1];
  }

  // ---------------------------------------------------------------------
  // display_vendor_analytics(df)
  // ---------------------------------------------------------------------

  /** The `vendor` column's cells, or `None` when the frame has no such column (pandas raises `KeyError`). */
  function VendorCounts(f: Frame): (r: Option<seq<VendorCount>>)
    ensures r.Some? <==> "vendor" in f.columns
    ensures r.Some? ==> NonIncreasing(r.value) && Total(r.value) == |f.rows|
  {
    match ColumnIndex(f.columns, "vendor")
    case None => None
    case Some(j) => Some(ValueCounts(ColumnCells(f.rows, j)))
  }

  /** Column `j` of the rows (a row too short to have one gives the empty string). */
  function ColumnCells(rows: seq<seq<string>>, j: nat): (column: seq<string>)
    ensures |column| == |rows|
  {
    seq(|rows|, i requires 0 <= i < |rows| => if j < |rows[i]| then rows[i][j] else "")
  }

  /** The cleaned vendor cell of every record, in record order. */
  function CleanedVendors(render: Render, isPrintable: char -> bool, records: seq<PackageRecord>): seq<string>
  {
    seq(|records|, i requires 0 <= i < |records| =>
      Clean(isPrintable, render(ColumnValues(records, VendorColumn), records[i].vendor)))
  }

  /** The `vendor` label sits at position `VendorColumn` of the record keys. */
  lemma VendorColumnFound()
    ensures ColumnIndex(RecordKeys, "vendor") == Some(VendorColumn)
  {
  }

  /** The frame's `vendor` column holds the records' cleaned vendor strings, in record order. */
  lemma VendorColumnIsCleanedVendors(render: Render, isPrintable: char -> bool, records: seq<PackageRecord>)
    ensures ColumnCells(CleanedFrame(render, isPrintable, records).rows, VendorColumn)
         == CleanedVendors(render, isPrintable, records)
  {
  }

  /**
   * The analytics fail exactly when there are no records (the frame then
   * has no `vendor` column); otherwise they are the value counts of the
   * records' cleaned vendor strings.
   */
  lemma VendorAnalyticsOfRecords(render: Render, isPrintable: char -> bool, records: seq<PackageRecord>)
    ensures VendorCounts(CleanedFrame(render, isPrintable, records)).None? <==> records == []
    ensures records != [] ==>
      VendorCounts(CleanedFrame(render, isPrintable, records))
        == Some(ValueCounts(CleanedVendors(render, isPrintable, records)))
  {
    if records != [] {
      VendorColumnFound();
      VendorColumnIsCleanedVendors(render, isPrintable, records);
    }
  }

  /**
   * A null vendor is rendered `"None"` before it is counted, so it is an
   * ordinary key of the table, shared with any vendor whose string form is
   * `"None"`.
   */
  lemma NullVendorCountedAsNone(render: Render, isPrintable: char -> bool,
                                records: seq<PackageRecord>, i: nat)
    requires render(ColumnValues(records, VendorColumn), JNull) == "None"
    requires isPrintable('N') && isPrintable('o') && isPrintable('n') && isPrintable('e')
    requires i < |records| && records[i].vendor == JNull
    ensures CleanedVendors(render, isPrintable, records)[i] == "None"
    ensures forall j :: 0 <= j < |records| && render(ColumnValues(records, VendorColumn), records[j].vendor) == "None" ==>
      CleanedVendors(render, isPrintable, records)[j] == "None"
    ensures var column := CleanedVendors(render, isPrintable, records);
      && "None" in Vendors(ValueCounts(column))
      && CountIn(ValueCounts(column), "None") == multiset(column)["None"] >= 1
  {
    var column := CleanedVendors(render, isPrintable, records);
    CleanFixesPrintable(isPrintable, "None");
    TallyCounts(column);
    SortByCountKeeps(Tally(column));
    assert column[i] == "None";
    assert "None" in column;
  }
}
