/**
 Merging duplicate items of a bracket matchup. Items with the same trimmed text share a
 bucket; the bucket keeps one row with the summed votes and the other rows are deleted.
 The merging is stated on entries, that is items together with their bucket key.
 */
module Dedupe {
  import opened Common
  import opened SeedLabels
  import opened Winner

  datatype Entry = Entry(item: Item, key: string)

  /** The bucket key: the trimmed text, or "id:N" when that is empty. */
  function Key(item: Item): string {
    var text := TrimSpace(item.text);
    if text == "" then "id:" + Decimal(item.id) else text
  }

  /**
   Items share a bucket when their trimmed texts agree; items without text only by id, or with a
   text that spells it.
   */
  lemma SameKeyIff(a: Item, b: Item)
    ensures var s, t := TrimSpace(a.text), TrimSpace(b.text);
            Key(a) == Key(b) <==>
              if s == "" && t == "" then a.id == b.id
              else if s == "" then t == "id:" + Decimal(a.id)
              else if t == "" then s == "id:" + Decimal(b.id)
              else s == t
  {
    DecimalIsInjective(a.id, b.id);
    assert Key(a) == "id:" + Decimal(a.id) ==> Key(a)[3..] == Decimal(a.id);
    assert Key(b) == "id:" + Decimal(b.id) ==> Key(b)[3..] == Decimal(b.id);
  }

  function WithKeys(items: seq<Item>): (entries: seq<Entry>)
    ensures |entries| == |items|
  {
    seq(|items|, i requires 0 <= i < |items| => Entry(items[i], Key(items[i])))
  }

  function Items(entries: seq<Entry>): (items: seq<Item>)
    ensures |items| == |entries|
  {
    seq(|entries|, i requires 0 <= i < |entries| => entries[i].item)
  }

  function KeyTotal(entries: seq<Entry>, key: string): int {
    if entries == [] then 0
    else
      var last := entries[|entries| - 1];
      KeyTotal(entries[..|entries| - 1], key) + if last.key == key then last.item.votes else 0
  }

  function Total(entries: seq<Entry>): int {
    if entries == [] then 0 else Total(entries[..|entries| - 1]) + entries[|entries| - 1].item.votes
  }

  /** The row a bucket keeps: its first item, unless a later one is the chosen winner. */
  function Keeper(entries: seq<Entry>, winner: Option<nat>, key: string): (keep: Option<Entry>)
    ensures keep.Some? ==> keep.value.key == key
  {
    if entries == [] then None
    else
      var keep := Keeper(entries[..|entries| - 1], winner, key);
      var last := entries[|entries| - 1];
      if last.key == key && (keep.None? || winner == Some(last.item.id)) then Some(last) else keep
  }

  function Kept(entries: seq<Entry>, winner: Option<nat>, key: string): Entry
    requires Keeper(entries, winner, key).Some?
  {
    var keep := Keeper(entries, winner, key).value;
    keep.(item := keep.item.(votes := KeyTotal(entries, key)))
  }

  lemma {:induction false} KeeperExists(entries: seq<Entry>, winner: Option<nat>, x: Entry)
    requires x in entries
    ensures Keeper(entries, winner, x.key).Some?
  {
    var last := |entries| - 1;
    if entries[last] != x {
      assert x in entries[..last];
      KeeperExists(entries[..last], winner, x);
    }
  }

  lemma {:induction false} KeeperIsEntry(entries: seq<Entry>, winner: Option<nat>, key: string)
    ensures Keeper(entries, winner, key).Some? ==> Keeper(entries, winner, key).value in entries
  {
    if entries != [] {
      KeeperIsEntry(entries[..|entries| - 1], winner, key);
    }
  }

  /** The first entry whose key differs from `key`. */
  function OtherEntry(entries: seq<Entry>, key: string): (other: Option<Entry>)
    ensures other.Some? ==> other.value.key != key && other.value in entries
    ensures other.None? ==> forall x :: x in entries ==> x.key == key
  {
    if entries == [] then None
    else if entries[0].key != key then Some(entries[0])
    else
      var other := OtherEntry(entries[1..], key);
      assert entries == [entries[0]] + entries[1..];
      other
  }

  function ById(a: Entry, b: Entry): seq<Entry> {
    if a.item.id <= b.item.id then [a, b] else [b, a]
  }

  datatype DedupeError = TooManyKeys

  /** The entries after deduping, ordered by id as the final SELECT returns them. */
  function DedupeEntries(entries: seq<Entry>, winner: Option<nat>): Result<seq<Entry>, DedupeError> {
    if |entries| <= 2 then Ok(entries)
    else
      var first := entries[0];
      KeeperExists(entries, winner, first);
      var a := Kept(entries, winner, first.key);
      match OtherEntry(entries, first.key)
      case None => Ok([a])
      case Some(other) =>
        KeeperExists(entries, winner, other);
        if exists x :: x in entries && x.key != first.key && x.key != other.key then Err(TooManyKeys)
        else Ok(ById(a, Kept(entries, winner, other.key)))
  }

  function DedupeItems(items: seq<Item>, winner: Option<nat>): Result<seq<Item>, DedupeError> {
    match DedupeEntries(WithKeys(items), winner)
    case Err(e) => Err(e)
    case Ok(entries) => Ok(Items(entries))
  }

  lemma PairsAreKept(items: seq<Item>, winner: Option<nat>)
    requires |items| <= 2
    ensures DedupeItems(items, winner) == Ok(items)
  {
    assert Items(WithKeys(items)) == items;
  }

  // ---- what deduping guarantees ----

  ghost predicate DistinctIds(entries: seq<Entry>) {
    forall i, j :: 0 <= i < j < |entries| ==> entries[i].item.id != entries[j].item.id
  }

  ghost predicate DistinctKeys(entries: seq<Entry>) {
    forall i, j :: 0 <= i < j < |entries| ==> entries[i].key != entries[j].key
  }

  ghost predicate ThreeKeys(entries: seq<Entry>) {
    exists x, y, z :: x in entries && y in entries && z in entries && x.key != y.key && x.key != z.key && y.key != z.key
  }

  /** What is left when there was something to merge: one or two kept rows with different keys. */
  lemma DedupeKeeps(entries: seq<Entry>, winner: Option<nat>) returns (a: Entry, b: Entry)
    requires |entries| > 2 && DedupeEntries(entries, winner).Ok?
    ensures Keeper(entries, winner, a.key).Some? && a == Kept(entries, winner, a.key)
    ensures Keeper(entries, winner, b.key).Some? && b == Kept(entries, winner, b.key)
    ensures DedupeEntries(entries, winner).value == if a.key == b.key then [a] else ById(a, b)
    ensures forall x :: x in entries ==> x.key == a.key || x.key == b.key
  {
    var first := entries[0];
    KeeperExists(entries, winner, first);
    a := Kept(entries, winner, first.key);
    b := a;
    var other := OtherEntry(entries, first.key);
    if other.Some? {
      KeeperExists(entries, winner, other.value);
      b := Kept(entries, winner, other.value.key);
    }
  }

  /** Deduping fails exactly when more than two items carry three different keys. */
  lemma DedupeFailsIff(entries: seq<Entry>, winner: Option<nat>)
    ensures DedupeEntries(entries, winner).Err? <==> |entries| > 2 && ThreeKeys(entries)
  {
    if |entries| > 2 {
      if DedupeEntries(entries, winner).Ok? {
        var a, b := DedupeKeeps(entries, winner);
      } else {
        var x, y := entries[0], OtherEntry(entries, entries[0].key).value;
        var z :| z in entries && z.key != x.key && z.key != y.key;
        assert x in entries;
      }
    }
  }

  /** The outcome has at most two items, with different keys exactly when more than two went in or none shared a key. */
  lemma DedupeLeavesTwo(entries: seq<Entry>, winner: Option<nat>)
    requires DedupeEntries(entries, winner).Ok?
    ensures |DedupeEntries(entries, winner).value| <= 2
    ensures DistinctKeys(DedupeEntries(entries, winner).value) <==> |entries| > 2 || DistinctKeys(entries)
  {
    if |entries| > 2 {
      var a, b := DedupeKeeps(entries, winner);
    }
  }

  /** Every kept row is one of the rows, up to its votes. */
  lemma DedupeKeepsRows(entries: seq<Entry>, winner: Option<nat>, x: Entry)
    requires DedupeEntries(entries, winner).Ok? && x in DedupeEntries(entries, winner).value
    ensures exists y :: y in entries && y.item.id == x.item.id && y.item.text == x.item.text
  {
    if |entries| > 2 {
      var a, b := DedupeKeeps(entries, winner);
      KeeperIsEntry(entries, winner, a.key);
      KeeperIsEntry(entries, winner, b.key);
    }
  }

  /** Two rows with one label stay as they are: deduping only looks at three or more. */
  lemma PairIsNotDeduped(key: string)
    ensures var pair := [Entry(Item(1, key, 3), key), Entry(Item(2, key, 4), key)];
            DedupeEntries(pair, None) == Ok(pair) && !DistinctKeys(pair)
  {
    var pair := [Entry(Item(1, key, 3), key), Entry(Item(2, key, 4), key)];
    assert pair[0].key == pair[1].key;
  }

  lemma {:induction false} TotalOfTwoKeys(entries: seq<Entry>, a: string, b: string)
    requires forall x :: x in entries ==> x.key == a || x.key == b
    ensures Total(entries) == KeyTotal(entries, a) + if a == b then 0 else KeyTotal(entries, b)
  {
    if entries != [] {
      assert entries[|entries| - 1] in entries;
      TotalOfTwoKeys(entries[..|entries| - 1], a, b);
    }
  }

  lemma TotalOfShort(a: Entry, b: Entry)
    ensures Total([a]) == a.item.votes && Total([a, b]) == a.item.votes + b.item.votes
  {
    assert [a][..0] == [] && [a, b][..1] == [a];
  }

  /** No vote is lost or invented. */
  lemma DedupeConservesVotes(entries: seq<Entry>, winner: Option<nat>)
    requires DedupeEntries(entries, winner).Ok?
    ensures Total(DedupeEntries(entries, winner).value) == Total(entries)
  {
    if |entries| > 2 {
      var a, b := DedupeKeeps(entries, winner);
      TotalOfShort(a, b);
      TotalOfShort(b, a);
      TotalOfTwoKeys(entries, a.key, b.key);
    }
  }

  lemma {:induction false} WinnerIsKeeper(entries: seq<Entry>, x: Entry)
    requires DistinctIds(entries) && x in entries
    ensures Keeper(entries, Some(x.item.id), x.key) == Some(x)
  {
    var front, last := entries[..|entries| - 1], entries[|entries| - 1];
    assert entries == front + [last];
    if last != x {
      WinnerIsKeeper(front, x);
    }
  }

  /** The rows of one key, in their order. */
  function OfKey(entries: seq<Entry>, key: string): seq<Entry> {
    if entries == [] then []
    else
      var front, last := OfKey(entries[..|entries| - 1], key), entries[|entries| - 1];
      if last.key == key then front + [last] else front
  }

  lemma {:induction false} KeyTotalIsTotal(entries: seq<Entry>, key: string)
    ensures KeyTotal(entries, key) == Total(OfKey(entries, key))
  {
    if entries != [] {
      KeyTotalIsTotal(entries[..|entries| - 1], key);
    }
  }

  /** Among the rows of one key, the chosen winner is kept, and without it the first. */
  lemma {:induction false} KeeperOfKey(entries: seq<Entry>, winner: Option<nat>, key: string)
    requires DistinctIds(entries) && OfKey(entries, key) != []
    ensures var rows := OfKey(entries, key);
            && (forall x :: x in rows <==> x in entries && x.key == key)
            && (forall x :: x in rows && winner == Some(x.item.id) ==> Keeper(entries, winner, key) == Some(x))
            && ((forall x :: x in rows ==> winner != Some(x.item.id)) ==> Keeper(entries, winner, key) == Some(rows[0]))
  {
    var front, last := entries[..|entries| - 1], entries[|entries| - 1];
    assert entries == front + [last];
    if OfKey(front, key) != [] {
      KeeperOfKey(front, winner, key);
    } else {
      NoneOfKey(front, winner, key);
    }
  }

  lemma {:induction false} NoneOfKey(entries: seq<Entry>, winner: Option<nat>, key: string)
    requires OfKey(entries, key) == []
    ensures Keeper(entries, winner, key) == None && forall x :: x in entries ==> x.key != key
  {
    if entries != [] {
      NoneOfKey(entries[..|entries| - 1], winner, key);
      assert entries == entries[..|entries| - 1] + [entries[|entries| - 1]];
    }
  }

  /**
   The row stands for all rows of its key: it has all their votes, and its id and text are the
   winner's or the first's.
   */
  ghost predicate StandsFor(entries: seq<Entry>, winner: Option<nat>, y: Entry) {
    var rows := OfKey(entries, y.key);
    && rows != [] && y.item.votes == Total(rows)
    && exists x :: && x in rows && y == x.(item := x.item.(votes := y.item.votes))
                   && (winner == Some(x.item.id) ||
                       (x == rows[0] && forall z :: z in rows ==> winner != Some(z.item.id)))
  }

  lemma KeptStandsFor(entries: seq<Entry>, winner: Option<nat>, key: string)
    requires DistinctIds(entries) && Keeper(entries, winner, key).Some?
    ensures StandsFor(entries, winner, Kept(entries, winner, key))
  {
    if OfKey(entries, key) == [] {
      NoneOfKey(entries, winner, key);
    }
    KeyTotalIsTotal(entries, key);
    KeeperOfKey(entries, winner, key);
    var rows := OfKey(entries, key);
    var x := Keeper(entries, winner, key).value;
    if z :| z in rows && winner == Some(z.item.id) {
      assert x == z;
    } else {
      assert x == rows[0];
    }
  }

  /** One row for each key, in the order of the ids. */
  ghost predicate OneForEachKey(entries: seq<Entry>, left: seq<Entry>) {
    && (forall x :: x in entries ==> exists y :: y in left && y.key == x.key)
    && (forall i, j :: 0 <= i < j < |left| ==> left[i].item.id < left[j].item.id && left[i].key != left[j].key)
  }

  lemma OneOrTwo(entries: seq<Entry>, a: Entry, b: Entry)
    requires forall x :: x in entries ==> x.key == a.key || x.key == b.key
    requires a.key == b.key || a.item.id != b.item.id
    ensures OneForEachKey(entries, if a.key == b.key then [a] else ById(a, b))
  {
    assert a in [a] && a in ById(a, b) && b in ById(a, b);
  }

  /** What merging leaves: one row for each key, in the order of the ids, each standing for the rows of its key. */
  lemma DedupeMerges(entries: seq<Entry>, winner: Option<nat>) returns (left: seq<Entry>)
    requires |entries| > 2 && DistinctIds(entries) && DedupeEntries(entries, winner).Ok?
    ensures DedupeEntries(entries, winner) == Ok(left) && OneForEachKey(entries, left)
    ensures forall y :: y in left ==> StandsFor(entries, winner, y)
  {
    var a, b := DedupeKeeps(entries, winner);
    left := if a.key == b.key then [a] else ById(a, b);
    KeptStandsFor(entries, winner, a.key);
    KeptStandsFor(entries, winner, b.key);
    assert forall y :: y in left ==> y == a || y == b;
    if a.key != b.key {
      KeptIdsDiffer(entries, winner, a.key, b.key);
    }
    OneOrTwo(entries, a, b);
  }

  /** A chosen winner that was among the items is still there. */
  lemma DedupeKeepsWinner(entries: seq<Entry>, x: Entry)
    requires DistinctIds(entries) && x in entries && DedupeEntries(entries, Some(x.item.id)).Ok?
    ensures exists y :: y in DedupeEntries(entries, Some(x.item.id)).value && y.item.id == x.item.id
  {
    if |entries| > 2 {
      var a, b := DedupeKeeps(entries, Some(x.item.id));
      WinnerIsKeeper(entries, x);
      var y := if x.key == a.key then a else b;
      assert y in DedupeEntries(entries, Some(x.item.id)).value;
    }
  }

  // ---- the loop of the source ----

  datatype Bucket = Bucket(keep: Entry, votes: int)

  ghost predicate BucketsOf(entries: seq<Entry>, winner: Option<nat>, buckets: map<string, Bucket>) {
    forall key :: && (key in buckets <==> Keeper(entries, winner, key).Some?)
                  && (key in buckets ==>
                        buckets[key] == Bucket(Keeper(entries, winner, key).value, KeyTotal(entries, key)))
  }

  /** Among the first n rows, exactly those that do not keep their bucket are marked deleted. */
  ghost predicate DeletedOf(entries: seq<Entry>, n: nat, winner: Option<nat>, deleted: set<nat>)
    requires n <= |entries|
  {
    && (forall i :: 0 <= i < n ==>
          (entries[i].item.id in deleted <==> Keeper(entries[..n], winner, entries[i].key) != Some(entries[i])))
    && (forall i :: n <= i < |entries| ==> entries[i].item.id !in deleted)
  }

  lemma {:induction false} NoKeeperNoVotes(entries: seq<Entry>, winner: Option<nat>, key: string)
    requires Keeper(entries, winner, key).None?
    ensures KeyTotal(entries, key) == 0
  {
    if entries != [] {
      NoKeeperNoVotes(entries[..|entries| - 1], winner, key);
    }
  }

  lemma NextKeeper(entries: seq<Entry>, winner: Option<nat>, n: nat, key: string)
    requires n < |entries|
    ensures Keeper(entries[..n + 1], winner, key) ==
            (var keep := Keeper(entries[..n], winner, key);
             if entries[n].key == key && (keep.None? || winner == Some(entries[n].item.id))
             then Some(entries[n]) else keep)
    ensures KeyTotal(entries[..n + 1], key) ==
            KeyTotal(entries[..n], key) + if entries[n].key == key then entries[n].item.votes else 0
  {
    assert entries[..n + 1][..n] == entries[..n];
  }

  function AddToBucket(buckets: map<string, Bucket>, x: Entry, winner: Option<nat>): map<string, Bucket> {
    if x.key !in buckets then buckets[x.key := Bucket(x, x.item.votes)]
    else
      var entry := buckets[x.key];
      buckets[x.key := Bucket(if winner == Some(x.item.id) then x else entry.keep, entry.votes + x.item.votes)]
  }

  lemma BucketsNext(entries: seq<Entry>, winner: Option<nat>, n: nat, buckets: map<string, Bucket>)
    requires n < |entries| && BucketsOf(entries[..n], winner, buckets)
    ensures BucketsOf(entries[..n + 1], winner, AddToBucket(buckets, entries[n], winner))
  {
    var next := AddToBucket(buckets, entries[n], winner);
    forall key
      ensures key in next <==> Keeper(entries[..n + 1], winner, key).Some?
      ensures key in next ==>
                next[key] == Bucket(Keeper(entries[..n + 1], winner, key).value, KeyTotal(entries[..n + 1], key))
    {
      NextKeeper(entries, winner, n, key);
      if key !in buckets {
        NoKeeperNoVotes(entries[..n], winner, key);
      }
    }
  }

  lemma DeletedNext(entries: seq<Entry>, winner: Option<nat>, n: nat, deleted: set<nat>)
    requires n < |entries| && DistinctIds(entries) && DeletedOf(entries, n, winner, deleted)
    ensures var keep := Keeper(entries[..n], winner, entries[n].key);
            DeletedOf(entries, n + 1, winner,
                      if keep.None? then deleted
                      else if winner == Some(entries[n].item.id) then deleted + {keep.value.item.id}
                      else deleted + {entries[n].item.id})
  {
    KeeperIsEntry(entries[..n], winner, entries[n].key);
    forall i | 0 <= i < n + 1
      ensures Keeper(entries[..n + 1], winner, entries[i].key) ==
              (var keep := Keeper(entries[..n], winner, entries[i].key);
               if entries[n].key == entries[i].key && (keep.None? || winner == Some(entries[n].item.id))
               then Some(entries[n]) else keep)
    {
      NextKeeper(entries, winner, n, entries[i].key);
    }
  }

  /** Fills the buckets; `deleted` collects the rows that lose their bucket to another. */
  method FillBuckets(entries: seq<Entry>, winner: Option<nat>) returns (buckets: map<string, Bucket>, deleted: set<nat>)
    requires DistinctIds(entries)
    ensures BucketsOf(entries, winner, buckets)
    ensures DeletedOf(entries, |entries|, winner, deleted)
  {
    buckets, deleted := map[], {};
    for n := 0 to |entries|
      invariant BucketsOf(entries[..n], winner, buckets)
      invariant DeletedOf(entries, n, winner, deleted)
    {
      BucketsNext(entries, winner, n, buckets);
      DeletedNext(entries, winner, n, deleted);
      var x := entries[n];
      if x.key !in buckets {
        buckets := buckets[x.key := Bucket(x, x.item.votes)];
      } else {
        var entry := buckets[x.key];
        if winner.Some? && x.item.id == winner.value {
          deleted := deleted + {entry.keep.item.id};
          buckets := buckets[x.key := Bucket(x, entry.votes + x.item.votes)];
        } else {
          deleted := deleted + {x.item.id};
          buckets := buckets[x.key := Bucket(entry.keep, entry.votes + x.item.votes)];
        }
      }
    }
    assert entries[..|entries|] == entries;
  }

  lemma BucketCount(entries: seq<Entry>, winner: Option<nat>, buckets: map<string, Bucket>)
    requires |entries| > 2 && BucketsOf(entries, winner, buckets)
    ensures |buckets| > 2 <==> DedupeEntries(entries, winner).Err?
  {
    var first, other := entries[0], OtherEntry(entries, entries[0].key);
    KeeperExists(entries, winner, first);
    if DedupeEntries(entries, winner).Err? {
      var z :| z in entries && z.key != first.key && z.key != other.value.key;
      KeeperExists(entries, winner, other.value);
      KeeperExists(entries, winner, z);
      SubsetSize({first.key, other.value.key, z.key}, buckets.Keys);
    } else {
      var a, b := DedupeKeeps(entries, winner);
      forall key | key in buckets
        ensures key in {a.key, b.key}
      {
        KeeperIsEntry(entries, winner, key);
      }
      SubsetSize(buckets.Keys, {a.key, b.key});
    }
  }

  lemma {:induction false} SubsetSize(small: set<string>, large: set<string>)
    requires small <= large
    ensures |small| <= |large|
  {
    if small != {} {
      var x :| x in small;
      SubsetSize(small - {x}, large - {x});
    }
  }

  /** The rows of the buckets with their summed votes, in the map's own order. */
  method KeptRows(entries: seq<Entry>, winner: Option<nat>, buckets: map<string, Bucket>) returns (kept: seq<Entry>)
    requires BucketsOf(entries, winner, buckets)
    ensures |kept| == |buckets|
    ensures forall x :: x in kept ==> x.key in buckets && x == Kept(entries, winner, x.key)
    ensures forall key :: key in buckets ==> Kept(entries, winner, key) in kept
  {
    var rest := buckets.Keys;
    kept := [];
    while rest != {}
      invariant rest <= buckets.Keys && |kept| + |rest| == |buckets|
      invariant forall x :: x in kept ==> x.key in buckets && x == Kept(entries, winner, x.key)
      invariant forall key :: key in buckets && key !in rest ==> Kept(entries, winner, key) in kept
      decreases rest
    {
      var key :| key in rest;
      var bucket := buckets[key];
      kept := kept + [bucket.keep.(item := bucket.keep.item.(votes := bucket.votes))];
      rest := rest - {key};
    }
  }

  lemma KeptIdsDiffer(entries: seq<Entry>, winner: Option<nat>, a: string, b: string)
    requires DistinctIds(entries) && a != b
    requires Keeper(entries, winner, a).Some? && Keeper(entries, winner, b).Some?
    ensures Kept(entries, winner, a).item.id != Kept(entries, winner, b).item.id
  {
    KeeperIsEntry(entries, winner, a);
    KeeperIsEntry(entries, winner, b);
  }

  lemma SortedKeptRows(entries: seq<Entry>, winner: Option<nat>, buckets: map<string, Bucket>, kept: seq<Entry>)
    requires |entries| > 2 && DistinctIds(entries) && BucketsOf(entries, winner, buckets) && |buckets| <= 2
    requires |kept| == |buckets|
    requires forall x :: x in kept ==> x.key in buckets && x == Kept(entries, winner, x.key)
    requires forall key :: key in buckets ==> Kept(entries, winner, key) in kept
    ensures DedupeEntries(entries, winner) ==
            Ok(if |kept| == 2 && kept[0].item.id > kept[1].item.id then [kept[1], kept[0]] else kept)
  {
    BucketCount(entries, winner, buckets);
    var a, b := DedupeKeeps(entries, winner);
    assert a in kept && b in kept;
    if a.key == b.key {
      forall key | key in buckets
        ensures key == a.key
      {
        KeeperIsEntry(entries, winner, key);
      }
      SubsetSize(buckets.Keys, {a.key});
      assert kept == [a];
    } else {
      SubsetSize({a.key, b.key}, buckets.Keys);
      KeptIdsDiffer(entries, winner, a.key, b.key);
      assert kept == [a, b] || kept == [b, a];
    }
  }

  /** Dedupe as the source runs it: at most two items pass, more are bucketed, more than two buckets fail. */
  method DedupeBracketMatchupItems(items: seq<Item>, winner: Option<nat>)
    returns (r: Result<seq<Item>, DedupeError>, deleted: set<nat>)
    requires DistinctIds(WithKeys(items))
    ensures r == DedupeItems(items, winner)
    ensures |items| > 2 ==> DeletedOf(WithKeys(items), |items|, winner, deleted)
  {
    deleted := {};
    if |items| <= 2 {
      PairsAreKept(items, winner);
      return Ok(items), deleted;
    }
    var entries := WithKeys(items);
    var buckets;
    buckets, deleted := FillBuckets(entries, winner);
    BucketCount(entries, winner, buckets);
    if |buckets| > 2 {
      return Err(TooManyKeys), deleted;
    }
    var kept := KeptRows(entries, winner, buckets);
    SortedKeptRows(entries, winner, buckets, kept);
    if |kept| == 2 && kept[0].item.id > kept[1].item.id {
      kept := [kept[1], kept[0]];
    }
    return Ok(Items(kept)), deleted;
  }
}
