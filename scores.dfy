/** The session's score store: a map from slider key to rating, filled once
    with the default rating, overwritten by every pass of the rating form, and
    summed per opportunity. */
module Scores {

  /** The rating every pair starts from, and the slider's starting position
      for a key that is not stored. */
  const DefaultRating := 3
  const MinRating := 1
  const MaxRating := 5

  /** The slider key of an (opportunity, differentiator) pair: the two names
      joined by an underscore. */
  function Key(opportunity: string, differentiator: string): (k: string)
    ensures |k| == |opportunity| + 1 + |differentiator|
    ensures k[..|opportunity|] == opportunity && k[|opportunity|] == '_'
    ensures k[|opportunity| + 1..] == differentiator
  {
    opportunity + "_" + differentiator
  }

  /** Keys are strings, not pairs: two different pairs can share one entry. */
  lemma KeysCanAlias()
    ensures ("a_b", "c") != ("a", "b_c") && Key("a_b", "c") == Key("a", "b_c")
  {
    assert Key("a_b", "c") == "a_b_c";
    assert Key("a", "b_c") == "a_b_c";
  }

  /** Two pairs share an entry only if an underscore inside one of the names
      makes it possible: when neither opportunity, or neither differentiator,
      holds an underscore, equal keys mean equal pairs. */
  lemma KeyInjectiveWithoutUnderscore(o1: string, d1: string, o2: string, d2: string)
    requires ('_' !in o1 && '_' !in o2) || ('_' !in d1 && '_' !in d2)
    requires Key(o1, d1) == Key(o2, d2)
    ensures o1 == o2 && d1 == d2
  {
    var k := Key(o1, d1);
    assert k == o1 + "_" + d1 && k == o2 + "_" + d2;
    if '_' !in o1 && '_' !in o2 {
      // The opportunity is everything before the key's first underscore.
      assert k[|o1|] == '_' && k[|o2|] == '_';
      assert forall i :: 0 <= i < |o1| ==> k[i] == o1[i] != '_';
      assert forall i :: 0 <= i < |o2| ==> k[i] == o2[i] != '_';
      assert |o1| == |o2|;
      assert o1 == k[..|o1|] && o2 == k[..|o2|];
      assert d1 == k[|o1| + 1..] && d2 == k[|o2| + 1..];
    } else {
      // The differentiator is everything after the key's last underscore.
      assert k[|k| - 1 - |d1|] == '_' && k[|k| - 1 - |d2|] == '_';
      assert forall i :: 0 <= i < |d1| ==> k[|k| - |d1| + i] == d1[i] != '_';
      assert forall i :: 0 <= i < |d2| ==> k[|k| - |d2| + i] == d2[i] != '_';
      assert |d1| == |d2|;
      assert d1 == k[|k| - |d1|..] && d2 == k[|k| - |d2|..];
      assert o1 == k[..|o1|] && o2 == k[..|o2|];
    }
  }

  /** The keys of one opportunity's sliders, in differentiator order. */
  function RowKeys(opportunity: string, differentiators: seq<string>): (ks: seq<string>)
    ensures |ks| == |differentiators|
    ensures forall j :: 0 <= j < |ks| ==> ks[j] == Key(opportunity, differentiators[j])
  {
    seq(|differentiators|, j requires 0 <= j < |differentiators| => Key(opportunity, differentiators[j]))
  }

  /** The keys of every pair in the order the nested loops visit them:
      opportunities outer, differentiators inner. */
  function PairKeys(opportunities: seq<string>, differentiators: seq<string>): seq<string>
  {
    if opportunities == [] then []
    else
      var init := opportunities[..|opportunities| - 1];
      PairKeys(init, differentiators) + RowKeys(opportunities[|opportunities| - 1], differentiators)
  }

  /** The visited keys are exactly the keys of the pairs. */
  lemma {:induction false} PairKeysMembers(opportunities: seq<string>, differentiators: seq<string>)
    ensures forall k :: k in PairKeys(opportunities, differentiators) <==>
      exists o, d :: o in opportunities && d in differentiators && k == Key(o, d)
  {
    if opportunities != [] {
      var init := opportunities[..|opportunities| - 1];
      var last := opportunities[|opportunities| - 1];
      assert opportunities == init + [last];
      PairKeysMembers(init, differentiators);
      var row := RowKeys(last, differentiators);
      forall k | k in row ensures exists d :: d in differentiators && k == Key(last, d) {
        var j :| 0 <= j < |row| && row[j] == k;
        assert differentiators[j] in differentiators;
      }
      forall o, d | o in opportunities && d in differentiators && o !in init
        ensures Key(o, d) in row
      {
        var j :| 0 <= j < |differentiators| && differentiators[j] == d;
        assert row[j] == Key(o, d);
      }
    }
  }

  /** The keys visited by the nested loops grow by one key per inner step... */
  lemma LoopKeysStep(visited: seq<string>, opportunity: string, differentiators: seq<string>, j: nat)
    requires j < |differentiators|
    ensures visited + RowKeys(opportunity, differentiators[..j + 1])
      == visited + RowKeys(opportunity, differentiators[..j]) + [Key(opportunity, differentiators[j])]
  {
    var row, row' := RowKeys(opportunity, differentiators[..j]), RowKeys(opportunity, differentiators[..j + 1]);
    assert row' == row + [Key(opportunity, differentiators[j])];
  }

  lemma TakeOneMore<T>(s: seq<T>, i: nat)
    requires i < |s|
    ensures s[..i + 1] == s[..i] + [s[i]]
  {
  }

  lemma PairKeysSnoc(opportunities: seq<string>, opportunity: string, differentiators: seq<string>)
    ensures PairKeys(opportunities + [opportunity], differentiators)
      == PairKeys(opportunities, differentiators) + RowKeys(opportunity, differentiators)
  {
    assert (opportunities + [opportunity])[..|opportunities|] == opportunities;
  }

  /** ...and a finished inner loop completes the opportunity's row. */
  lemma LoopKeysRow(opportunities: seq<string>, differentiators: seq<string>, i: nat)
    requires i < |opportunities|
    ensures PairKeys(opportunities[..i], differentiators) + RowKeys(opportunities[i], differentiators[..|differentiators|])
      == PairKeys(opportunities[..i + 1], differentiators)
  {
    assert differentiators[..|differentiators|] == differentiators;
    TakeOneMore(opportunities, i);
    PairKeysSnoc(opportunities[..i], opportunities[i], differentiators);
  }

  /** One opportunity's keys differ whenever its differentiators do. */
  lemma KeyCancelOpportunity(opportunity: string, d1: string, d2: string)
    requires Key(opportunity, d1) == Key(opportunity, d2)
    ensures d1 == d2
  {
    var k := Key(opportunity, d1);
    assert d1 == k[|opportunity| + 1..] == d2;
  }

  /** Joining two duplicate-free lists with no common element gives a
      duplicate-free list. */
  lemma DistinctConcat(a: seq<string>, b: seq<string>)
    requires forall i, j :: 0 <= i < j < |a| ==> a[i] != a[j]
    requires forall i, j :: 0 <= i < j < |b| ==> b[i] != b[j]
    requires forall x :: x in a ==> x !in b
    ensures forall i, j :: 0 <= i < j < |a + b| ==> (a + b)[i] != (a + b)[j]
  {
    forall i, j | 0 <= i < j < |a + b| ensures (a + b)[i] != (a + b)[j] {
      if j >= |a| {
        assert (a + b)[j] == b[j - |a|];
        if i < |a| {
          assert (a + b)[i] == a[i] && a[i] in a;
        } else {
          assert (a + b)[i] == b[i - |a|];
        }
      }
    }
  }

  /** The nested loops visit every key once: when the sheet lists each
      opportunity and each differentiator once, and no opportunity (or no
      differentiator) contains an underscore, no two pairs share a key. */
  lemma {:induction false} PairKeysDistinct(opportunities: seq<string>, differentiators: seq<string>)
    requires forall i, j :: 0 <= i < j < |opportunities| ==> opportunities[i] != opportunities[j]
    requires forall i, j :: 0 <= i < j < |differentiators| ==> differentiators[i] != differentiators[j]
    requires (forall o :: o in opportunities ==> '_' !in o) || (forall d :: d in differentiators ==> '_' !in d)
    ensures forall i, j :: 0 <= i < j < |PairKeys(opportunities, differentiators)| ==>
      PairKeys(opportunities, differentiators)[i] != PairKeys(opportunities, differentiators)[j]
  {
    if opportunities != [] {
      var init := opportunities[..|opportunities| - 1];
      var last := opportunities[|opportunities| - 1];
      assert opportunities == init + [last];
      PairKeysDistinct(init, differentiators);
      PairKeysMembers(init, differentiators);
      var row := RowKeys(last, differentiators);
      forall i, j | 0 <= i < j < |row| ensures row[i] != row[j] {
        if row[i] == row[j] {
          KeyCancelOpportunity(last, differentiators[i], differentiators[j]);
        }
      }
      forall x | x in PairKeys(init, differentiators) ensures x !in row {
        var o, d :| o in init && d in differentiators && x == Key(o, d);
        if x in row {
          var j :| 0 <= j < |row| && row[j] == x;
          KeyInjectiveWithoutUnderscore(o, d, last, differentiators[j]);
        }
      }
      DistinctConcat(PairKeys(init, differentiators), row);
    }
  }

  /** The stored rating of a key, or a fallback when the key is absent. */
  function Lookup(scores: map<string, int>, key: string, fallback: int): (v: int)
    ensures key in scores ==> v == scores[key]
    ensures key !in scores ==> v == fallback
  {
    if key in scores then scores[key] else fallback
  }

  /** The store as first filled: every pair's key maps to the default rating,
      and nothing else is stored. */
  function InitialScores(opportunities: seq<string>, differentiators: seq<string>): (m: map<string, int>)
    ensures forall o, d :: o in opportunities && d in differentiators ==>
      Key(o, d) in m && m[Key(o, d)] == DefaultRating
    ensures forall k :: k in m ==>
      exists o, d :: o in opportunities && d in differentiators && k == Key(o, d)
  {
    PairKeysMembers(opportunities, differentiators);
    AllDefault(PairKeys(opportunities, differentiators))
  }

  /** Every key of a list mapped to the default rating. */
  function AllDefault(keys: seq<string>): (m: map<string, int>)
    ensures m.Keys == set k | k in keys
    ensures forall k :: k in m ==> m[k] == DefaultRating
  {
    map k | k in keys :: DefaultRating
  }

  lemma AllDefaultSnoc(keys: seq<string>, key: string)
    ensures AllDefault(keys + [key]) == AllDefault(keys)[key := DefaultRating]
  {
    var a, b := AllDefault(keys + [key]), AllDefault(keys)[key := DefaultRating];
    assert a.Keys == b.Keys;
  }

  /** A slider position the user can choose is a rating in [1, 5]. */
  ghost predicate SliderInRange(slider: (string, int) -> int)
  {
    forall key, current :: MinRating <= slider(key, current) <= MaxRating
  }

  /** The store after the sliders of the given keys have been read and
      written, one after the other: each slider starts from the key's stored
      rating, or the default rating when none is stored, and its position
      overwrites that key's entry. */
  function Written(scores: map<string, int>, keys: seq<string>, slider: (string, int) -> int): map<string, int>
  {
    if keys == [] then scores
    else
      var prev := Written(scores, keys[..|keys| - 1], slider);
      var key := keys[|keys| - 1];
      prev[key := slider(key, Lookup(prev, key, DefaultRating))]
  }

  lemma WrittenSnoc(scores: map<string, int>, keys: seq<string>, key: string, slider: (string, int) -> int)
    ensures Written(scores, keys + [key], slider)
      == Written(scores, keys, slider)[key := slider(key, Lookup(Written(scores, keys, slider), key, DefaultRating))]
  {
    assert (keys + [key])[..|keys|] == keys;
  }

  /** A form pass adds exactly the written keys and leaves every other entry
      as it was. */
  lemma {:induction false} WrittenChangesOnlyWrittenKeys(scores: map<string, int>, keys: seq<string>, slider: (string, int) -> int)
    ensures Written(scores, keys, slider).Keys == scores.Keys + set k | k in keys
    ensures forall k :: k in scores && k !in keys ==> Written(scores, keys, slider)[k] == scores[k]
  {
    if keys != [] {
      var init := keys[..|keys| - 1];
      assert keys == init + [keys[|keys| - 1]];
      WrittenChangesOnlyWrittenKeys(scores, init, slider);
    }
  }

  /** Every written key ends up holding a slider position, so a rating in
      [1, 5]. */
  lemma {:induction false} WrittenKeysInRange(scores: map<string, int>, keys: seq<string>, slider: (string, int) -> int)
    requires SliderInRange(slider)
    ensures forall k :: k in keys ==>
      k in Written(scores, keys, slider) && MinRating <= Written(scores, keys, slider)[k] <= MaxRating
  {
    if keys != [] {
      var init := keys[..|keys| - 1];
      assert keys == init + [keys[|keys| - 1]];
      WrittenKeysInRange(scores, init, slider);
    }
  }

  /** When one key is written more than once, the last write in loop order
      decides its entry. */
  lemma {:induction false} LastWriteWins(scores: map<string, int>, keys: seq<string>, slider: (string, int) -> int, i: nat)
    requires i < |keys| && keys[i] !in keys[i + 1..]
    ensures keys[i] in Written(scores, keys[..i + 1], slider)
    ensures keys[i] in Written(scores, keys, slider)
    ensures Written(scores, keys, slider)[keys[i]] == Written(scores, keys[..i + 1], slider)[keys[i]]
  {
    var k := keys[i];
    assert keys[..i + 1] == keys[..i] + [k];
    if i + 1 < |keys| {
      var init := keys[..|keys| - 1];
      assert init[i + 1..] == keys[i + 1..|keys| - 1];
      assert init[..i + 1] == keys[..i + 1];
      LastWriteWins(scores, init, slider, i);
      assert keys[|keys| - 1] in keys[i + 1..];
    } else {
      assert keys[..i + 1] == keys;
    }
  }

  /** When no two pairs share a key, every pair's slider starts from that
      pair's own stored rating (or the default) and its position is what the
      store holds afterwards. */
  lemma {:induction false} WrittenFromStored(scores: map<string, int>, keys: seq<string>, slider: (string, int) -> int)
    requires forall i, j :: 0 <= i < j < |keys| ==> keys[i] != keys[j]
    ensures forall k :: k in keys ==>
      k in Written(scores, keys, slider) &&
      Written(scores, keys, slider)[k] == slider(k, Lookup(scores, k, DefaultRating))
  {
    if keys != [] {
      var init := keys[..|keys| - 1];
      var last := keys[|keys| - 1];
      assert keys == init + [last];
      WrittenFromStored(scores, init, slider);
      WrittenChangesOnlyWrittenKeys(scores, init, slider);
      assert last !in init;
    }
  }

  /** On a sheet whose opportunities and differentiators are each listed once
      and whose opportunities (or differentiators) hold no underscore, a form
      pass leaves every pair's key holding that pair's slider position, the
      slider having started from the pair's own stored rating (or 3). */
  lemma EachPairFromOwnRating(scores: map<string, int>, opportunities: seq<string>,
                              differentiators: seq<string>, slider: (string, int) -> int)
    requires forall i, j :: 0 <= i < j < |opportunities| ==> opportunities[i] != opportunities[j]
    requires forall i, j :: 0 <= i < j < |differentiators| ==> differentiators[i] != differentiators[j]
    requires (forall o :: o in opportunities ==> '_' !in o) || (forall d :: d in differentiators ==> '_' !in d)
    ensures forall o, d :: o in opportunities && d in differentiators ==>
      var after := Written(scores, PairKeys(opportunities, differentiators), slider);
      Key(o, d) in after && after[Key(o, d)] == slider(Key(o, d), Lookup(scores, Key(o, d), DefaultRating))
  {
    var keys := PairKeys(opportunities, differentiators);
    PairKeysDistinct(opportunities, differentiators);
    PairKeysMembers(opportunities, differentiators);
    WrittenFromStored(scores, keys, slider);
  }

  /** One opportunity's total: the sum over the differentiators of the stored
      rating of its key, an absent key counting 0. */
  function Total(scores: map<string, int>, opportunity: string, differentiators: seq<string>): int
  {
    if differentiators == [] then 0
    else
      var init := differentiators[..|differentiators| - 1];
      var last := differentiators[|differentiators| - 1];
      Total(scores, opportunity, init) + Lookup(scores, Key(opportunity, last), 0)
  }

  /** Ratings all in [1, 5]. */
  ghost predicate RatingsInRange(scores: map<string, int>)
  {
    forall k :: k in scores ==> MinRating <= scores[k] <= MaxRating
  }

  /** With every stored rating in [1, 5], a total lies in [0, 5n] for n
      differentiators, and in [n, 5n] once every one of its keys is stored. */
  lemma {:induction false} TotalBounds(scores: map<string, int>, opportunity: string, differentiators: seq<string>)
    requires RatingsInRange(scores)
    ensures 0 <= Total(scores, opportunity, differentiators) <= MaxRating * |differentiators|
    ensures (forall d :: d in differentiators ==> Key(opportunity, d) in scores) ==>
      MinRating * |differentiators| <= Total(scores, opportunity, differentiators)
  {
    if differentiators != [] {
      var init := differentiators[..|differentiators| - 1];
      var last := differentiators[|differentiators| - 1];
      assert differentiators == init + [last];
      TotalBounds(scores, opportunity, init);
    }
  }

  /** The total of an opportunity with no stored key is 0. */
  lemma {:induction false} TotalOfUnstored(scores: map<string, int>, opportunity: string, differentiators: seq<string>)
    requires forall d :: d in differentiators ==> Key(opportunity, d) !in scores
    ensures Total(scores, opportunity, differentiators) == 0
  {
    if differentiators != [] {
      var init := differentiators[..|differentiators| - 1];
      assert differentiators == init + [differentiators[|differentiators| - 1]];
      TotalOfUnstored(scores, opportunity, init);
    }
  }

  /** After a form pass over the pairs, every pair's key is stored, with a
      rating in [1, 5]. */
  lemma EveryPairStoredAfterFormPass(scores: map<string, int>, opportunities: seq<string>,
                                      differentiators: seq<string>, slider: (string, int) -> int)
    requires SliderInRange(slider)
    ensures forall o, d :: o in opportunities && d in differentiators ==>
      var after := Written(scores, PairKeys(opportunities, differentiators), slider);
      Key(o, d) in after && MinRating <= after[Key(o, d)] <= MaxRating
  {
    PairKeysMembers(opportunities, differentiators);
    WrittenKeysInRange(scores, PairKeys(opportunities, differentiators), slider);
  }

  /** After a form pass over a store of ratings in [1, 5], every
      opportunity's total lies in [n, 5n] for n differentiators. */
  lemma TotalsInRangeAfterFormPass(scores: map<string, int>, opportunities: seq<string>,
                                   differentiators: seq<string>, slider: (string, int) -> int)
    requires RatingsInRange(scores) && SliderInRange(slider)
    ensures forall o :: o in opportunities ==>
      var after := Written(scores, PairKeys(opportunities, differentiators), slider);
      MinRating * |differentiators| <= Total(after, o, differentiators) <= MaxRating * |differentiators|
  {
    var keys := PairKeys(opportunities, differentiators);
    var after := Written(scores, keys, slider);
    EveryPairStoredAfterFormPass(scores, opportunities, differentiators, slider);
    WrittenKeysInRange(scores, keys, slider);
    WrittenChangesOnlyWrittenKeys(scores, keys, slider);
    assert RatingsInRange(after);
    forall o | o in opportunities
      ensures MinRating * |differentiators| <= Total(after, o, differentiators) <= MaxRating * |differentiators|
    {
      TotalBounds(after, o, differentiators);
    }
  }

  /** One row of the results table. */
  datatype ScoreRow = ScoreRow(opportunity: string, total: int)

  /** The session-state entry holding the ratings. `created` says whether
      the entry exists yet; `scores` is its dictionary. */
  class ScoreStore {
    var created: bool
    var scores: map<string, int>

    /** A store not yet created is empty; every stored rating is in [1, 5]. */
    ghost predicate Valid()
      reads this
    {
      && (!created ==> scores == map[])
      && RatingsInRange(scores)
    }

    /** A fresh session has no store. */
    constructor ()
      ensures Valid() && !created && scores == map[]
    {
      created := false;
      scores := map[];
    }

    /** Create the store and give every pair the default rating, unless the
        store already exists, in which case nothing changes. */
    method InitialiseOnce(opportunities: seq<string>, differentiators: seq<string>)
      requires Valid()
      modifies this
      ensures Valid() && created
      ensures old(created) ==> scores == old(scores)
      ensures !old(created) ==> scores == InitialScores(opportunities, differentiators)
    {
      if created {
        return;
      }
      created := true;
      scores := map[];
      ghost var done: seq<string> := [];
      var i := 0;
      while i < |opportunities|
        invariant 0 <= i <= |opportunities|
        invariant created
        invariant done == PairKeys(opportunities[..i], differentiators)
        invariant scores == AllDefault(done)
      {
        var opportunity := opportunities[i];
        ghost var rowStart := done;
        assert rowStart + RowKeys(opportunity, differentiators[..0]) == rowStart;
        var j := 0;
        while j < |differentiators|
          invariant 0 <= j <= |differentiators|
          invariant created
          invariant done == rowStart + RowKeys(opportunity, differentiators[..j])
          invariant scores == AllDefault(done)
        {
          var key := Key(opportunity, differentiators[j]);
          AllDefaultSnoc(done, key);
          LoopKeysStep(rowStart, opportunity, differentiators, j);
          scores := scores[key := DefaultRating];
          done := done + [key];
          j := j + 1;
        }
        LoopKeysRow(opportunities, differentiators, i);
        i := i + 1;
      }
      assert opportunities[..i] == opportunities;
    }

    /** One pass of the rating form: for every pair, in loop order, read the
        slider (starting from the stored rating, or the default) and store its
        position under the pair's key. */
    method FormPass(opportunities: seq<string>, differentiators: seq<string>, slider: (string, int) -> int)
      requires Valid() && created
      requires SliderInRange(slider)
      modifies this`scores
      ensures Valid()
      ensures scores == Written(old(scores), PairKeys(opportunities, differentiators), slider)
    {
      ghost var start := scores;
      ghost var done: seq<string> := [];
      var i := 0;
      while i < |opportunities|
        invariant 0 <= i <= |opportunities|
        invariant RatingsInRange(scores) && created
        invariant done == PairKeys(opportunities[..i], differentiators)
        invariant scores == Written(start, done, slider)
      {
        var opportunity := opportunities[i];
        ghost var rowStart := done;
        assert rowStart + RowKeys(opportunity, differentiators[..0]) == rowStart;
        var j := 0;
        while j < |differentiators|
          invariant 0 <= j <= |differentiators|
          invariant RatingsInRange(scores) && created
          invariant done == rowStart + RowKeys(opportunity, differentiators[..j])
          invariant scores == Written(start, done, slider)
        {
          var key := Key(opportunity, differentiators[j]);
          var current := if key in scores then scores[key] else DefaultRating;
          var position := slider(key, current);
          WrittenSnoc(start, done, key, slider);
          LoopKeysStep(rowStart, opportunity, differentiators, j);
          scores := scores[key := position];
          done := done + [key];
          j := j + 1;
        }
        LoopKeysRow(opportunities, differentiators, i);
        i := i + 1;
      }
      assert opportunities[..i] == opportunities;
    }

    /** The results table: one row per opportunity, in opportunity order,
        holding its total over the differentiators. */
    method Totals(opportunities: seq<string>, differentiators: seq<string>) returns (rows: seq<ScoreRow>)
      ensures |rows| == |opportunities|
      ensures forall i :: 0 <= i < |rows| ==>
        rows[i] == ScoreRow(opportunities[i], Total(scores, opportunities[i], differentiators))
    {
      rows := [];
      var i := 0;
      while i < |opportunities|
        invariant 0 <= i <= |opportunities|
        invariant |rows| == i
        invariant forall k :: 0 <= k < i ==>
          rows[k] == ScoreRow(opportunities[k], Total(scores, opportunities[k], differentiators))
      {
        var opportunity := opportunities[i];
        var totalScore := 0;
        var j := 0;
        while j < |differentiators|
          invariant 0 <= j <= |differentiators|
          invariant totalScore == Total(scores, opportunity, differentiators[..j])
        {
          var key := Key(opportunity, differentiators[j]);
          totalScore := totalScore + if key in scores then scores[key] else 0;
          assert differentiators[..j + 1][..j] == differentiators[..j];
          j := j + 1;
        }
        assert differentiators[..j] == differentiators;
        rows := rows + [ScoreRow(opportunity, totalScore)];
        i := i + 1;
      }
    }
  }
}
