/** The ranking of the results table: its rows sorted by total, highest
    first. The library sort behind it is not stable, so only the order of the
    totals is promised, not the order of rows with equal totals. */
module Ranking {
  import opened Scores

  /** Totals never increase down the table. */
  predicate NonIncreasing(rows: seq<ScoreRow>)
  {
    forall i, j :: 0 <= i < j < |rows| ==> rows[i].total >= rows[j].total
  }

  /** What the sort promises: the same rows, as a multiset, in non-increasing
      order of total. */
  predicate IsRanking(rows: seq<ScoreRow>, ranked: seq<ScoreRow>)
  {
    multiset(ranked) == multiset(rows) && NonIncreasing(ranked)
  }

  /** A row that totals at least as much as every row of a ranked table can
      head it. */
  lemma ConsNonIncreasing(row: ScoreRow, ranked: seq<ScoreRow>)
    requires NonIncreasing(ranked)
    requires forall y :: y in ranked ==> y.total <= row.total
    ensures NonIncreasing([row] + ranked)
  {
    var r := [row] + ranked;
    forall i, j | 0 <= i < j < |r| ensures r[i].total >= r[j].total {
      assert r[j] == ranked[j - 1];
      if 0 < i {
        assert r[i] == ranked[i - 1];
      }
    }
  }

  /** Put one row into a ranked table, after every row with a higher total. */
  function Insert(row: ScoreRow, ranked: seq<ScoreRow>): (r: seq<ScoreRow>)
    requires NonIncreasing(ranked)
    ensures multiset(r) == multiset(ranked) + multiset{row}
    ensures forall y :: y in r ==> y == row || y in ranked
    ensures NonIncreasing(r)
  {
    if ranked == [] || row.total >= ranked[0].total then
      assert forall y :: y in ranked ==> y.total <= row.total by {
        forall y | y in ranked ensures y.total <= row.total {
          var k :| 0 <= k < |ranked| && ranked[k] == y;
          assert k == 0 || ranked[0].total >= ranked[k].total;
        }
      }
      ConsNonIncreasing(row, ranked);
      [row] + ranked
    else
      var head, tail := ranked[0], ranked[1..];
      assert ranked == [head] + tail;
      assert NonIncreasing(tail) by {
        forall i, j | 0 <= i < j < |tail| ensures tail[i].total >= tail[j].total {
          assert tail[i] == ranked[i + 1] && tail[j] == ranked[j + 1];
        }
      }
      var rest := Insert(row, tail);
      assert forall y :: y in rest ==> y.total <= head.total by {
        forall y | y in rest ensures y.total <= head.total {
          if y != row {
            var k :| 0 <= k < |tail| && tail[k] == y;
            assert ranked[k + 1] == y;
          }
        }
      }
      ConsNonIncreasing(head, rest);
      [head] + rest
  }

  /** One admissible outcome of the descending sort of the results table. */
  function Rank(rows: seq<ScoreRow>): (r: seq<ScoreRow>)
    ensures IsRanking(rows, r)
  {
    if rows == [] then []
    else
      assert rows == [rows[0]] + rows[1..];
      Insert(rows[0], Rank(rows[1..]))
  }

  /** The opportunity column of a table. */
  function Opportunities(rows: seq<ScoreRow>): (os: seq<string>)
    ensures |os| == |rows|
    ensures forall i :: 0 <= i < |rows| ==> os[i] == rows[i].opportunity
  {
    seq(|rows|, i requires 0 <= i < |rows| => rows[i].opportunity)
  }

  lemma RepeatedRow(rows: seq<ScoreRow>, i: nat, j: nat)
    requires i < j < |rows| && rows[i] == rows[j]
    ensures multiset(rows)[rows[i]] >= 2
  {
    var x := rows[i];
    assert rows == rows[..i] + [x] + rows[i + 1..j] + [x] + rows[j + 1..];
  }

  lemma SingleRow(rows: seq<ScoreRow>, p: nat)
    requires p < |rows| && forall k :: 0 <= k < |rows| && k != p ==> rows[k] != rows[p]
    ensures multiset(rows)[rows[p]] == 1
  {
    var x := rows[p];
    assert rows == rows[..p] + [x] + rows[p + 1..];
    assert x !in rows[..p];
    assert x !in rows[p + 1..];
  }

  /** A ranking keeps exactly one row per opportunity: when the results table
      names each opportunity once, so does every ranking of it, and both name
      the same opportunities. */
  lemma OneRowPerOpportunity(rows: seq<ScoreRow>, ranked: seq<ScoreRow>)
    requires IsRanking(rows, ranked)
    requires forall i, j :: 0 <= i < j < |rows| ==> rows[i].opportunity != rows[j].opportunity
    ensures |ranked| == |rows|
    ensures forall o :: o in Opportunities(ranked) <==> o in Opportunities(rows)
    ensures forall i, j :: 0 <= i < j < |ranked| ==> ranked[i].opportunity != ranked[j].opportunity
  {
    assert |ranked| == |multiset(ranked)| == |multiset(rows)| == |rows|;
    forall i, j | 0 <= i < j < |ranked|
      ensures ranked[i].opportunity != ranked[j].opportunity
    {
      var a, b := ranked[i], ranked[j];
      assert a in multiset(rows) && b in multiset(rows);
      var p :| 0 <= p < |rows| && rows[p] == a;
      var q :| 0 <= q < |rows| && rows[q] == b;
      if a.opportunity == b.opportunity {
        assert p == q;
        RepeatedRow(ranked, i, j);
        SingleRow(rows, p);
        assert false;
      }
    }
    forall o ensures o in Opportunities(ranked) <==> o in Opportunities(rows) {
      if o in Opportunities(ranked) {
        var i :| 0 <= i < |ranked| && Opportunities(ranked)[i] == o;
        assert ranked[i] in multiset(rows);
        var p :| 0 <= p < |rows| && rows[p] == ranked[i];
        assert Opportunities(rows)[p] == o;
      }
      if o in Opportunities(rows) {
        var p :| 0 <= p < |rows| && Opportunities(rows)[p] == o;
        assert rows[p] in multiset(ranked);
        var i :| 0 <= i < |ranked| && ranked[i] == rows[p];
        assert Opportunities(ranked)[i] == o;
      }
    }
  }

  /** Taking one row out of a table removes one copy of it... */
  lemma RemoveOne(rows: seq<ScoreRow>, p: nat)
    requires p < |rows|
    ensures multiset(rows[..p] + rows[p + 1..]) == multiset(rows) - multiset{rows[p]}
  {
    assert rows == rows[..p] + [rows[p]] + rows[p + 1..];
  }

  /** ...and leaves a ranked table ranked. */
  lemma RemoveKeepsNonIncreasing(rows: seq<ScoreRow>, p: nat)
    requires p < |rows| && NonIncreasing(rows)
    ensures NonIncreasing(rows[..p] + rows[p + 1..])
  {
    var r := rows[..p] + rows[p + 1..];
    forall i, j | 0 <= i < j < |r| ensures r[i].total >= r[j].total {
      var i' := if i < p then i else i + 1;
      var j' := if j < p then j else j + 1;
      assert r[i] == rows[i'] && r[j] == rows[j'];
    }
  }

  /** The heads of two rankings of the same rows have equal totals: each is
      a greatest total. */
  lemma HeadsAgree(a: seq<ScoreRow>, b: seq<ScoreRow>) returns (p: nat)
    requires multiset(a) == multiset(b) && NonIncreasing(a) && NonIncreasing(b) && a != []
    ensures |a| == |b| && p < |b| && b[p] == a[0] && a[0].total == b[0].total
  {
    assert |a| == |multiset(a)| == |multiset(b)| == |b|;
    assert a[0] in multiset(b) && b[0] in multiset(a);
    p :| 0 <= p < |b| && b[p] == a[0];
    var q :| 0 <= q < |a| && a[q] == b[0];
  }

  /** If a's tail matches b with the row at p taken out, and a's head has the
      total of both b[0] and b[p], then a and b match position by position. */
  lemma ShiftTotals(a: seq<ScoreRow>, b: seq<ScoreRow>, rest: seq<ScoreRow>, p: nat)
    requires |a| == |b| && p < |b| && NonIncreasing(b) && rest == b[..p] + b[p + 1..]
    requires a[0].total == b[p].total == b[0].total
    requires forall k :: 0 <= k < |rest| ==> a[1..][k].total == rest[k].total
    ensures forall i :: 0 <= i < |a| ==> a[i].total == b[i].total
  {
    forall i | 0 < i < |a| ensures a[i].total == b[i].total {
      assert a[i] == a[1..][i - 1];
      if i <= p {
        assert rest[i - 1] == b[i - 1];
        assert b[i - 1].total >= b[i].total >= b[p].total;
      } else {
        assert rest[i - 1] == b[i];
      }
    }
  }

  /** Taking the heads' common row out of both rankings leaves two rankings
      of the same rows. */
  lemma RemoveHead(a: seq<ScoreRow>, b: seq<ScoreRow>, p: nat) returns (rest: seq<ScoreRow>)
    requires multiset(a) == multiset(b) && NonIncreasing(a) && NonIncreasing(b)
    requires a != [] && p < |b| && b[p] == a[0]
    ensures rest == b[..p] + b[p + 1..]
    ensures multiset(a[1..]) == multiset(rest) && NonIncreasing(a[1..]) && NonIncreasing(rest)
  {
    rest := b[..p] + b[p + 1..];
    RemoveOne(b, p);
    RemoveKeepsNonIncreasing(b, p);
    assert a[..0] + a[1..] == a[1..];
    RemoveOne(a, 0);
    RemoveKeepsNonIncreasing(a, 0);
  }

  /** The totals of a ranking do not depend on how ties were ordered: two
      rankings of the same table list the same totals, position by position. */
  lemma {:induction false} RankedTotalsDetermined(a: seq<ScoreRow>, b: seq<ScoreRow>)
    requires multiset(a) == multiset(b) && NonIncreasing(a) && NonIncreasing(b)
    ensures |a| == |b|
    ensures forall i :: 0 <= i < |a| ==> a[i].total == b[i].total
  {
    assert |a| == |multiset(a)| == |multiset(b)| == |b|;
    if a != [] {
      var p := HeadsAgree(a, b);
      var rest := RemoveHead(a, b, p);
      RankedTotalsDetermined(a[1..], rest);
      ShiftTotals(a, b, rest, p);
    }
  }
}
