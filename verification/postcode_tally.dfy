/** The group-and-count behind the most-delayed-postcode query:
    `GROUP BY p.recipientPostcode` with `COUNT(p)`, then
    `ORDER BY delayCount DESC`, over a list of packages. */
module PostcodeTally {
  import opened Model

  /** How many of `ps` are addressed to postcode `pc`. */
  function CountAt(ps: seq<Package>, pc: string): nat {
    if ps == [] then 0
    else (if ps[0].recipientPostcode == pc then 1 else 0) + CountAt(ps[1..], pc)
  }

  /** The count the first row for `pc` carries, 0 when there is none. */
  function CountOf(rows: seq<PostcodeByCount>, pc: string): nat {
    if rows == [] then 0
    else if rows[0].recipientPostcode == pc then rows[0].delayCount
    else CountOf(rows[1..], pc)
  }

  /** The sum of all counts. */
  function Total(rows: seq<PostcodeByCount>): nat {
    if rows == [] then 0 else rows[0].delayCount + Total(rows[1..])
  }

  /** Each postcode heads at most one row. */
  predicate DistinctPostcodes(rows: seq<PostcodeByCount>) {
    forall i, j :: 0 <= i < j < |rows| ==> rows[i].recipientPostcode != rows[j].recipientPostcode
  }

  predicate AllPositive(rows: seq<PostcodeByCount>) {
    forall i :: 0 <= i < |rows| ==> rows[i].delayCount >= 1
  }

  /** `ORDER BY delayCount DESC` */
  predicate IsCountDescending(rows: seq<PostcodeByCount>) {
    forall i, j :: 0 <= i < j < |rows| ==> rows[j].delayCount <= rows[i].delayCount
  }

  /** In rows with distinct postcodes, no row after the first shares the
      first row's postcode. */
  lemma HeadIsUnique(rows: seq<PostcodeByCount>)
    requires DistinctPostcodes(rows) && rows != []
    ensures forall y :: y in rows[1..] ==> y.recipientPostcode != rows[0].recipientPostcode
    ensures forall y :: y in rows ==> y == rows[0] || y in rows[1..]
  {
    forall y | y in rows[1..]
      ensures y.recipientPostcode != rows[0].recipientPostcode
    {
      var k :| 0 <= k < |rows[1..]| && rows[1..][k] == y;
      assert rows[k + 1] == y;
    }
    assert rows == [rows[0]] + rows[1..];
  }

  /** In rows with distinct postcodes, `CountOf` reads the count of the one
      row for the postcode, and is 0 when no row has it. */
  lemma {:induction false} CountOfDistinct(rows: seq<PostcodeByCount>, pc: string)
    requires DistinctPostcodes(rows)
    ensures forall y :: y in rows && y.recipientPostcode == pc ==> CountOf(rows, pc) == y.delayCount
    ensures (forall y :: y in rows ==> y.recipientPostcode != pc) ==> CountOf(rows, pc) == 0
  {
    if rows != [] {
      assert DistinctPostcodes(rows[1..]);
      CountOfDistinct(rows[1..], pc);
      HeadIsUnique(rows);
    }
  }

  /** Two row lists with the same rows and distinct postcodes report the
      same count for every postcode. */
  lemma SameRowsSameCounts(a: seq<PostcodeByCount>, b: seq<PostcodeByCount>, pc: string)
    requires DistinctPostcodes(a) && DistinctPostcodes(b)
    requires forall y :: y in a <==> y in b
    ensures CountOf(a, pc) == CountOf(b, pc)
  {
    CountOfDistinct(a, pc);
    CountOfDistinct(b, pc);
  }

  /** A row whose postcode no row of `rows` has may go in front of them. */
  lemma PrependDistinct(x: PostcodeByCount, rows: seq<PostcodeByCount>)
    requires DistinctPostcodes(rows)
    requires forall y :: y in rows ==> y.recipientPostcode != x.recipientPostcode
    ensures DistinctPostcodes([x] + rows)
  {
    var r := [x] + rows;
    forall i, j | 0 <= i < j < |r|
      ensures r[i].recipientPostcode != r[j].recipientPostcode
    {
      assert r[j] == rows[j - 1];
      if i > 0 {
        assert r[i] == rows[i - 1];
      }
    }
  }

  /** Counts one more package for `pc`: increments its row, or appends a row
      with count 1 when there is none. */
  function Bump(rows: seq<PostcodeByCount>, pc: string): (r: seq<PostcodeByCount>)
    requires DistinctPostcodes(rows)
    ensures DistinctPostcodes(r)
    ensures AllPositive(rows) ==> AllPositive(r)
    ensures forall y :: y in r ==> y.recipientPostcode == pc || y in rows
  {
    if rows == [] then [PostcodeByCount(pc, 1)]
    else
      assert rows == [rows[0]] + rows[1..];
      HeadIsUnique(rows);
      assert DistinctPostcodes(rows[1..]);
      if rows[0].recipientPostcode == pc then
        var head := rows[0].(delayCount := rows[0].delayCount + 1);
        PrependDistinct(head, rows[1..]);
        [head] + rows[1..]
      else
        var tail := Bump(rows[1..], pc);
        PrependDistinct(rows[0], tail);
        [rows[0]] + tail
  }

  /** `Bump` adds exactly one to the total and to the count of `pc`, and
      leaves every other postcode's count alone. */
  lemma {:induction false} BumpCounts(rows: seq<PostcodeByCount>, pc: string)
    requires DistinctPostcodes(rows)
    ensures Total(Bump(rows, pc)) == Total(rows) + 1
    ensures forall q :: CountOf(Bump(rows, pc), q) == CountOf(rows, q) + (if q == pc then 1 else 0)
  {
    if rows != [] && rows[0].recipientPostcode != pc {
      assert DistinctPostcodes(rows[1..]);
      BumpCounts(rows[1..], pc);
      assert Bump(rows, pc)[1..] == Bump(rows[1..], pc);
    } else if rows != [] {
      assert Bump(rows, pc)[1..] == rows[1..];
    }
  }

  /** Groups `ps` by postcode: one row per postcode that occurs, carrying the
      number of packages addressed to it. */
  function Tally(ps: seq<Package>): (r: seq<PostcodeByCount>)
    ensures DistinctPostcodes(r) && AllPositive(r)
    ensures Total(r) == |ps|
    ensures forall q :: CountOf(r, q) == CountAt(ps, q)
  {
    if ps == [] then []
    else
      var rest := Tally(ps[1..]);
      BumpCounts(rest, ps[0].recipientPostcode);
      Bump(rest, ps[0].recipientPostcode)
  }

  /** A row counting at least as much as every row of a descending list may
      go in front of it. */
  lemma PrependLarger(x: PostcodeByCount, rows: seq<PostcodeByCount>)
    requires IsCountDescending(rows)
    requires forall y :: y in rows ==> y.delayCount <= x.delayCount
    ensures IsCountDescending([x] + rows)
  {
    var r := [x] + rows;
    forall i, j | 0 <= i < j < |r|
      ensures r[j].delayCount <= r[i].delayCount
    {
      assert r[j] == rows[j - 1];
      if i > 0 {
        assert r[i] == rows[i - 1];
      }
    }
  }

  /** Inserts `x` before the first row whose count does not exceed its own. */
  function Insert(x: PostcodeByCount, rows: seq<PostcodeByCount>): (r: seq<PostcodeByCount>)
    requires IsCountDescending(rows)
    ensures IsCountDescending(r)
    ensures forall y :: y in r <==> y in rows || y == x
  {
    if rows == [] || rows[0].delayCount <= x.delayCount then
      assert forall y :: y in rows ==> y.delayCount <= rows[0].delayCount;
      PrependLarger(x, rows);
      [x] + rows
    else
      assert rows == [rows[0]] + rows[1..];
      var tail := Insert(x, rows[1..]);
      assert forall y :: y in tail ==> y.delayCount <= rows[0].delayCount;
      PrependLarger(rows[0], tail);
      [rows[0]] + tail
  }

  /** Insertion is a permutation of the rows plus the inserted one. */
  lemma {:induction false} InsertIsPermutation(x: PostcodeByCount, rows: seq<PostcodeByCount>)
    requires IsCountDescending(rows)
    ensures multiset(Insert(x, rows)) == multiset(rows) + multiset{x}
  {
    if rows != [] && rows[0].delayCount > x.delayCount {
      assert rows == [rows[0]] + rows[1..];
      InsertIsPermutation(x, rows[1..]);
      assert Insert(x, rows) == [rows[0]] + Insert(x, rows[1..]);
    }
  }

  /** Inserting a row whose postcode is new keeps the postcodes distinct. */
  lemma {:induction false} InsertKeepsDistinct(x: PostcodeByCount, rows: seq<PostcodeByCount>)
    requires IsCountDescending(rows) && DistinctPostcodes(rows)
    requires forall y :: y in rows ==> y.recipientPostcode != x.recipientPostcode
    ensures DistinctPostcodes(Insert(x, rows))
  {
    if rows != [] && rows[0].delayCount > x.delayCount {
      var r := Insert(x, rows);
      var tail := Insert(x, rows[1..]);
      assert r == [rows[0]] + tail;
      HeadIsUnique(rows);
      assert DistinctPostcodes(rows[1..]);
      InsertKeepsDistinct(x, rows[1..]);
      assert forall j :: 0 < j < |r| ==> r[j] in tail;
    }
  }

  /** Inserting a row adds its count to the total. */
  lemma {:induction false} InsertTotal(x: PostcodeByCount, rows: seq<PostcodeByCount>)
    requires IsCountDescending(rows)
    ensures Total(Insert(x, rows)) == Total(rows) + x.delayCount
  {
    if rows == [] || rows[0].delayCount <= x.delayCount {
      assert Insert(x, rows)[1..] == rows;
    } else {
      InsertTotal(x, rows[1..]);
      assert Insert(x, rows)[1..] == Insert(x, rows[1..]);
    }
  }

  /** Insertion sort into descending count order: a permutation of `rows`. */
  function SortByCountDesc(rows: seq<PostcodeByCount>): (r: seq<PostcodeByCount>)
    ensures IsCountDescending(r)
    ensures multiset(r) == multiset(rows)
    ensures forall y :: y in r <==> y in rows
  {
    if rows == [] then []
    else
      assert rows == [rows[0]] + rows[1..];
      InsertIsPermutation(rows[0], SortByCountDesc(rows[1..]));
      Insert(rows[0], SortByCountDesc(rows[1..]))
  }

  /** Sorting keeps the total and the distinctness of postcodes. */
  lemma {:induction false} SortKeepsTally(rows: seq<PostcodeByCount>)
    ensures Total(SortByCountDesc(rows)) == Total(rows)
    ensures DistinctPostcodes(rows) ==> DistinctPostcodes(SortByCountDesc(rows))
  {
    if rows != [] {
      var sorted := SortByCountDesc(rows[1..]);
      SortKeepsTally(rows[1..]);
      InsertTotal(rows[0], sorted);
      if DistinctPostcodes(rows) {
        HeadIsUnique(rows);
        assert DistinctPostcodes(rows[1..]);
        InsertKeepsDistinct(rows[0], sorted);
      }
    }
  }

  /** The aggregate over `ps`: one row per postcode, with count at least 1
      equal to the number of packages at that postcode, in descending count
      order, the counts summing to `|ps|`. */
  function CountByPostcodeDescending(ps: seq<Package>): (r: seq<PostcodeByCount>)
    ensures DistinctPostcodes(r) && AllPositive(r) && IsCountDescending(r)
    ensures Total(r) == |ps|
    ensures forall q :: CountOf(r, q) == CountAt(ps, q)
  {
    var groups := Tally(ps);
    var r := SortByCountDesc(groups);
    SortKeepsTally(groups);
    assert forall i :: 0 <= i < |r| ==> r[i] in groups;
    forall q
      ensures CountOf(r, q) == CountAt(ps, q)
    {
      SameRowsSameCounts(r, groups, q);
    }
    r
  }
}
