/** Lists that are edited by key: putting an item appends it unless an item of its key is there,
    dropping removes every item of its key. What a list of such edits does to the order of the
    items, and when doing all of it again changes nothing. */
module KeyOrder {

  datatype Op<V> = Put(item: V) | Drop(item: V)

  ghost predicate Has<V, K>(key: V -> K, items: seq<V>, k: K) {
    exists e :: e in items && key(e) == k
  }

  ghost function Step<V, K>(key: V -> K, items: seq<V>, op: Op<V>): seq<V> {
    match op
    case Put(item) => if Has(key, items, key(item)) then items else items + [item]
    case Drop(item) => Select(key, items, {key(item)}, false)
  }

  ghost function Fold<V, K>(key: V -> K, items: seq<V>, ops: seq<Op<V>>): seq<V>
    decreases |ops|
  {
    if ops == [] then items else Fold(key, Step(key, items, ops[0]), ops[1..])
  }

  /** The items whose keys are among the given ones, or those whose keys are not. */
  ghost function Select<V, K>(key: V -> K, items: seq<V>, keys: set<K>, inside: bool): seq<V> {
    if items == [] then []
    else (if (key(items[0]) in keys) == inside then [items[0]] else []) + Select(key, items[1..], keys, inside)
  }

  ghost function Keys<V, K>(key: V -> K, items: seq<V>): set<K> {
    if items == [] then {} else {key(items[0])} + Keys(key, items[1..])
  }

  ghost function Dropped<V, K>(key: V -> K, ops: seq<Op<V>>): set<K> {
    if ops == [] then {} else (if ops[0].Drop? then {key(ops[0].item)} else {}) + Dropped(key, ops[1..])
  }

  ghost function Added<V, K>(key: V -> K, ops: seq<Op<V>>): set<K> {
    if ops == [] then {} else (if ops[0].Put? then {key(ops[0].item)} else {}) + Added(key, ops[1..])
  }

  // ----- When the order changes -----

  /** The put brings its key back for good after it was dropped. */
  ghost predicate Returns<V, K>(key: V -> K, ops: seq<Op<V>>, i: nat)
    requires i < |ops|
  {
    ops[i].Put? && key(ops[i].item) in Dropped(key, ops[..i]) && key(ops[i].item) !in Dropped(key, ops[i..])
  }

  /** The put adds a key that is new to the list, is never dropped, and was not added before `i`. */
  ghost predicate Arrives<V, K>(key: V -> K, items: seq<V>, ops: seq<Op<V>>, i: nat, j: nat)
    requires i < j < |ops|
  {
    && ops[j].Put? && key(ops[j].item) !in Keys(key, items)
    && key(ops[j].item) !in Dropped(key, ops) && key(ops[j].item) !in Added(key, ops[..i])
  }

  /** A key comes back before a new one is added: the next time it will come back after it. */
  ghost predicate Reorders<V, K>(key: V -> K, items: seq<V>, ops: seq<Op<V>>) {
    exists i, j :: 0 <= i < j < |ops| && Returns(key, ops, i) && Arrives(key, items, ops, i, j)
  }

  // ----- What stays and what is appended -----

  lemma {:induction false} KeysHave<V, K>(key: V -> K, items: seq<V>, k: K)
    ensures k in Keys(key, items) <==> exists i :: 0 <= i < |items| && key(items[i]) == k
  {
    if items != [] {
      KeysHave(key, items[1..], k);
      assert forall i :: 0 <= i < |items| - 1 ==> items[1..][i] == items[i + 1];
      if i :| 0 <= i < |items| && key(items[i]) == k {
        if i > 0 { assert items[1..][i - 1] == items[i]; }
      }
    }
  }

  lemma HasIff<V, K>(key: V -> K, items: seq<V>, k: K)
    ensures Has(key, items, k) <==> k in Keys(key, items)
  {
    KeysHave(key, items, k);
  }

  lemma {:induction false} KeysAppend<V, K>(key: V -> K, items: seq<V>, item: V)
    ensures Keys(key, items + [item]) == Keys(key, items) + {key(item)}
  {
    if items == [] {
      assert items + [item] == [item] && [item][1..] == [];
    } else {
      assert (items + [item])[1..] == items[1..] + [item];
      KeysAppend(key, items[1..], item);
    }
  }

  lemma {:induction false} KeysSelect<V, K>(key: V -> K, items: seq<V>, keys: set<K>, inside: bool)
    ensures Keys(key, Select(key, items, keys, inside)) ==
            if inside then Keys(key, items) * keys else Keys(key, items) - keys
  {
    if items != [] {
      KeysSelect(key, items[1..], keys, inside);
      var rest := Select(key, items[1..], keys, inside);
      assert [] + rest == rest && ([items[0]] + rest)[1..] == rest;
    }
  }

  lemma {:induction false} SelectConcat<V, K>(key: V -> K, a: seq<V>, b: seq<V>, keys: set<K>, inside: bool)
    ensures Select(key, a + b, keys, inside) == Select(key, a, keys, inside) + Select(key, b, keys, inside)
  {
    if a == [] {
      assert a + b == b;
    } else {
      assert (a + b)[1..] == a[1..] + b && (a + b)[0] == a[0];
      SelectConcat(key, a[1..], b, keys, inside);
      var head := if (key(a[0]) in keys) == inside then [a[0]] else [];
      var first, second := Select(key, a[1..], keys, inside), Select(key, b, keys, inside);
      assert Select(key, a + b, keys, inside) == head + Select(key, a[1..] + b, keys, inside);
      assert head + (first + second) == (head + first) + second;
    }
  }

  /** Dropping in two rounds drops what either round drops. */
  lemma {:induction false} SelectTwice<V, K>(key: V -> K, items: seq<V>, a: set<K>, b: set<K>)
    ensures Select(key, Select(key, items, a, false), b, false) == Select(key, items, a + b, false)
  {
    if items != [] {
      SelectTwice(key, items[1..], a, b);
      var rest := Select(key, items[1..], a, false);
      assert ([items[0]] + rest)[1..] == rest && [] + rest == rest;
    }
  }

  lemma SelectOne<V, K>(key: V -> K, item: V, keys: set<K>, inside: bool)
    ensures Select(key, [item], keys, inside) == if (key(item) in keys) == inside then [item] else []
  {
    assert [item][1..] == [];
  }

  lemma {:induction false} SelectNone<V, K>(key: V -> K, items: seq<V>)
    ensures Select(key, items, {}, false) == items
  {
    if items != [] {
      SelectNone(key, items[1..]);
    }
  }

  /** What the edits append, in order, when the keys `present` are there at first. */
  ghost function Appended<V, K>(key: V -> K, present: set<K>, ops: seq<Op<V>>): seq<V>
    decreases |ops|
  {
    if ops == [] then []
    else
      var k := key(ops[0].item);
      match ops[0]
      case Drop(_) => Appended(key, present - {k}, ops[1..])
      case Put(item) =>
        (if k in present || k in Dropped(key, ops[1..]) then [] else [item]) + Appended(key, present + {k}, ops[1..])
  }

  /** The edits keep what they never drop, in its order, and append the rest. */
  lemma {:induction false} FoldSplits<V, K>(key: V -> K, items: seq<V>, ops: seq<Op<V>>)
    ensures Fold(key, items, ops) == Select(key, items, Dropped(key, ops), false) + Appended(key, Keys(key, items), ops)
    decreases |ops|
  {
    hide Step, Select;
    if ops == [] {
      SelectNone(key, items);
    } else {
      FoldSplits(key, Step(key, items, ops[0]), ops[1..]);
      match ops[0]
      case Drop(item) => DropSplits(key, items, item, Dropped(key, ops[1..]));
      case Put(item) => PutSplits(key, items, item, ops[1..]);
    }
  }

  lemma DropSplits<V, K>(key: V -> K, items: seq<V>, item: V, gone: set<K>)
    ensures var next := Step(key, items, Drop(item));
            && Select(key, next, gone, false) == Select(key, items, {key(item)} + gone, false)
            && Keys(key, next) == Keys(key, items) - {key(item)}
  {
    SelectTwice(key, items, {key(item)}, gone);
    KeysSelect(key, items, {key(item)}, false);
  }

  lemma PutSplits<V, K>(key: V -> K, items: seq<V>, item: V, rest: seq<Op<V>>)
    ensures var next := Step(key, items, Put(item)); var gone := Dropped(key, rest);
            var own := if key(item) in Keys(key, items) || key(item) in gone then [] else [item];
            Select(key, next, gone, false) + Appended(key, Keys(key, next), rest) ==
            Select(key, items, {} + gone, false) + (own + Appended(key, Keys(key, items) + {key(item)}, rest))
  {
    hide Select, Appended, Dropped;
    var gone := Dropped(key, rest);
    HasIff(key, items, key(item));
    assert {} + gone == gone;
    if key(item) in Keys(key, items) {
      assert Keys(key, items) + {key(item)} == Keys(key, items);
    } else {
      KeysAppend(key, items, item);
      SelectConcat(key, items, [item], gone, false);
      SelectOne(key, item, gone, false);
    }
  }

  // ----- The second round -----

  /** Of the appended items the second round appends those that it drops itself: here `before` and
      `again` are the keys present at the same place of the two rounds. */
  lemma {:induction false} AppendedAgain<V, K>(key: V -> K, before: set<K>, again: set<K>, ops: seq<Op<V>>,
                                               gone: set<K>)
    requires Dropped(key, ops) <= gone
    requires forall k :: k in gone && k !in Dropped(key, ops) ==> (k in before <==> k in again)
    requires forall k :: k in Added(key, ops) && k !in gone ==> k in again
    ensures Appended(key, again, ops) == Select(key, Appended(key, before, ops), gone, true)
    decreases |ops|
  {
    if ops != [] {
      var op, rest := ops[0], ops[1..];
      var k := key(op.item);
      match op
      case Drop(_) => AppendedAgain(key, before - {k}, again - {k}, rest, gone);
      case Put(item) =>
        AppendedAgain(key, before + {k}, again + {k}, rest, gone);
        var tail := Appended(key, before + {k}, rest);
        assert [] + tail == tail && ([item] + tail)[1..] == tail;
        assert [] + Select(key, tail, gone, true) == Select(key, tail, gone, true);
    }
  }

  lemma {:induction false} NeverDropped<V, K>(key: V -> K, items: seq<V>, ops: seq<Op<V>>, k: K)
    requires k !in Dropped(key, ops) && (k in Keys(key, items) || k in Added(key, ops))
    ensures k in Keys(key, Fold(key, items, ops))
    decreases |ops|
  {
    if ops != [] {
      var op := ops[0];
      HasIff(key, items, key(op.item));
      KeysAppend(key, items, op.item);
      KeysSelect(key, items, {key(op.item)}, false);
      NeverDropped(key, Step(key, items, op), ops[1..], k);
    }
  }

  /** The second round moves the items that it drops to the end, and nothing else. */
  lemma FoldTwice<V, K>(key: V -> K, items: seq<V>, ops: seq<Op<V>>)
    ensures var gone := Dropped(key, ops); var tail := Appended(key, Keys(key, items), ops);
            Fold(key, Fold(key, items, ops), ops) ==
            Select(key, items, gone, false) + (Select(key, tail, gone, false) + Select(key, tail, gone, true))
  {
    hide Fold, Appended, Dropped, Added, Keys;
    var gone, once := Dropped(key, ops), Fold(key, items, ops);
    var kept, tail := Select(key, items, gone, false), Appended(key, Keys(key, items), ops);
    FoldSplits(key, items, ops);
    FoldSplits(key, once, ops);
    forall k | k in Added(key, ops) && k !in gone ensures k in Keys(key, once) {
      NeverDropped(key, items, ops, k);
    }
    AppendedAgain(key, Keys(key, items), Keys(key, once), ops, gone);
    SelectConcat(key, kept, tail, gone, false);
    SelectTwice(key, items, gone, gone);
    assert gone + gone == gone;
  }

  /** An item of the given keys stands before one of other keys. */
  ghost predicate Mixed<V, K>(key: V -> K, items: seq<V>, keys: set<K>) {
    exists a, b :: 0 <= a < b < |items| && key(items[a]) in keys && key(items[b]) !in keys
  }

  lemma {:induction false} SortedIff<V, K>(key: V -> K, items: seq<V>, keys: set<K>)
    ensures Select(key, items, keys, false) + Select(key, items, keys, true) == items <==> !Mixed(key, items, keys)
  {
    hide Mixed;
    if items == [] {
      assert !Mixed(key, items, keys) by { NotMixed(key, items, keys); }
    } else {
      var first, rest := items[0], items[1..];
      var others, own := Select(key, rest, keys, false), Select(key, rest, keys, true);
      SortedIff(key, rest, keys);
      MixedCons(key, items, keys);
      KeysHaveNot(key, rest, keys);
      assert items == [first] + rest;
      if key(first) in keys {
        FrontIff(key, first, rest, others, own, keys);
      } else {
        assert Select(key, items, keys, false) + Select(key, items, keys, true) == [first] + (others + own);
        assert ([first] + (others + own))[1..] == others + own;
      }
    }
  }

  lemma NotMixed<V, K>(key: V -> K, items: seq<V>, keys: set<K>)
    requires items == []
    ensures !Mixed(key, items, keys)
  {
  }

  lemma FrontIff<V, K>(key: V -> K, first: V, rest: seq<V>, others: seq<V>, own: seq<V>, keys: set<K>)
    requires key(first) in keys && others == Select(key, rest, keys, false)
    ensures others + ([first] + own) == [first] + rest <==> others == [] && others + own == rest
  {
    OthersAre(key, rest, keys);
    if others != [] {
      assert (others + ([first] + own))[0] == others[0] && ([first] + rest)[0] == first;
    } else {
      assert others + ([first] + own) == [first] + own && others + own == own;
      assert ([first] + own)[1..] == own && ([first] + rest)[1..] == rest;
    }
  }

  lemma {:induction false} OthersAre<V, K>(key: V -> K, items: seq<V>, keys: set<K>)
    ensures forall i :: 0 <= i < |Select(key, items, keys, false)| ==> key(Select(key, items, keys, false)[i]) !in keys
  {
    if items != [] {
      OthersAre(key, items[1..], keys);
    }
  }

  lemma {:induction false} KeysHaveNot<V, K>(key: V -> K, items: seq<V>, keys: set<K>)
    ensures Select(key, items, keys, false) == [] <==> !Outside(key, items, keys)
  {
    if items != [] {
      KeysHaveNot(key, items[1..], keys);
      assert forall i :: 0 <= i < |items| - 1 ==> items[1..][i] == items[i + 1];
      assert forall i :: 0 < i < |items| ==> items[i] == items[1..][i - 1];
    }
  }

  ghost predicate Outside<V, K>(key: V -> K, items: seq<V>, keys: set<K>) {
    exists b :: 0 <= b < |items| && key(items[b]) !in keys
  }

  lemma OutsideCons<V, K>(key: V -> K, first: V, rest: seq<V>, keys: set<K>)
    ensures Outside(key, [first] + rest, keys) <==> key(first) !in keys || Outside(key, rest, keys)
  {
    var items := [first] + rest;
    assert key(items[0]) == key(first) && forall b :: 0 <= b < |rest| ==> items[b + 1] == rest[b];
    if Outside(key, items, keys) {
      var b :| 0 <= b < |items| && key(items[b]) !in keys;
      if b > 0 { assert rest[b - 1] == items[b]; }
    }
  }

  lemma MixedCons<V, K>(key: V -> K, items: seq<V>, keys: set<K>)
    requires items != []
    ensures Mixed(key, items, keys) <==>
            || Mixed(key, items[1..], keys)
            || (key(items[0]) in keys && Outside(key, items[1..], keys))
  {
    var rest := items[1..];
    assert forall i :: 0 <= i < |rest| ==> rest[i] == items[i + 1];
    if Mixed(key, items, keys) {
      var a, b :| 0 <= a < b < |items| && key(items[a]) in keys && key(items[b]) !in keys;
      assert rest[b - 1] == items[b];
      if a > 0 { assert rest[a - 1] == items[a]; }
    }
    if Mixed(key, rest, keys) {
      var a, b :| 0 <= a < b < |rest| && key(rest[a]) in keys && key(rest[b]) !in keys;
      assert items[a + 1] == rest[a] && items[b + 1] == rest[b];
    }
    if key(items[0]) in keys && Outside(key, rest, keys) {
      var b :| 0 <= b < |rest| && key(rest[b]) !in keys;
      assert items[b + 1] == rest[b];
    }
  }

  // ----- The same in terms of the edits -----

  ghost predicate ReturnsFrom<V, K>(key: V -> K, present: set<K>, ops: seq<Op<V>>, gone: set<K>, i: nat)
    requires i < |ops|
  {
    var k := key(ops[i].item);
    && ops[i].Put? && k in gone && k !in Dropped(key, ops[i..])
    && (k !in present || k in Dropped(key, ops[..i]))
  }

  ghost predicate ArrivesFrom<V, K>(key: V -> K, present: set<K>, ops: seq<Op<V>>, gone: set<K>, i: nat, j: nat)
    requires i < j < |ops|
  {
    var k := key(ops[j].item);
    ops[j].Put? && k !in present && k !in gone && k !in Added(key, ops[..i])
  }

  ghost predicate MixedFrom<V, K>(key: V -> K, present: set<K>, ops: seq<Op<V>>, gone: set<K>) {
    exists i, j ::
      && 0 <= i < j < |ops|
      && ReturnsFrom(key, present, ops, gone, i) && ArrivesFrom(key, present, ops, gone, i, j)
  }

  /** The edits add a key that is not there and is not among the given ones. */
  ghost predicate Brings<V, K>(key: V -> K, present: set<K>, ops: seq<Op<V>>, gone: set<K>) {
    exists j :: 0 <= j < |ops| && ops[j].Put? && key(ops[j].item) !in present && key(ops[j].item) !in gone
  }

  ghost function After<V, K>(key: V -> K, present: set<K>, op: Op<V>): set<K> {
    if op.Put? then present + {key(op.item)} else present - {key(op.item)}
  }

  lemma BringsCons<V, K>(key: V -> K, present: set<K>, ops: seq<Op<V>>, gone: set<K>)
    requires ops != [] && Dropped(key, ops) <= gone
    ensures var k := key(ops[0].item);
            Brings(key, present, ops, gone) <==>
            (ops[0].Put? && k !in present && k !in gone) || Brings(key, After(key, present, ops[0]), ops[1..], gone)
  {
    var rest := ops[1..];
    if Brings(key, present, ops, gone) {
      var j :| 0 <= j < |ops| && ops[j].Put? && key(ops[j].item) !in present && key(ops[j].item) !in gone;
      if j > 0 { assert rest[j - 1] == ops[j]; }
    }
    if Brings(key, After(key, present, ops[0]), rest, gone) {
      var j :| 0 <= j < |rest| && rest[j].Put? && key(rest[j].item) !in After(key, present, ops[0])
          && key(rest[j].item) !in gone;
      assert ops[j + 1] == rest[j];
    }
  }

  lemma {:induction false} BringsIff<V, K>(key: V -> K, present: set<K>, ops: seq<Op<V>>, gone: set<K>)
    requires Dropped(key, ops) <= gone
    ensures Brings(key, present, ops, gone) <==> Outside(key, Appended(key, present, ops), gone)
    decreases |ops|
  {
    hide Brings, Outside;
    if ops == [] {
      assert !Outside(key, [], gone) by { NothingOutside(key, gone); }
      assert !Brings(key, present, ops, gone) by { BringsNothing(key, present, ops, gone); }
    } else {
      var tail := Appended(key, After(key, present, ops[0]), ops[1..]);
      BringsCons(key, present, ops, gone);
      BringsIff(key, After(key, present, ops[0]), ops[1..], gone);
      assert [] + tail == tail;
      OutsideCons(key, ops[0].item, tail, gone);
    }
  }

  lemma NothingOutside<V, K>(key: V -> K, gone: set<K>)
    ensures !Outside(key, [], gone)
  {
  }

  lemma BringsNothing<V, K>(key: V -> K, present: set<K>, ops: seq<Op<V>>, gone: set<K>)
    requires ops == []
    ensures !Brings(key, present, ops, gone)
  {
  }

  lemma {:induction false} DroppedSplit<V, K>(key: V -> K, ops: seq<Op<V>>, i: nat)
    requires i <= |ops|
    ensures Dropped(key, ops) == Dropped(key, ops[..i]) + Dropped(key, ops[i..])
  {
    if i > 0 {
      DroppedSplit(key, ops[1..], i - 1);
      assert ops[..i][1..] == ops[1..][..i - 1] && ops[1..][i - 1..] == ops[i..];
    } else {
      assert ops[..i] == [] && ops[i..] == ops;
    }
  }

  /** One edit further on, everything moves by one place. */
  lemma ShiftOps<V, K>(key: V -> K, present: set<K>, ops: seq<Op<V>>, gone: set<K>, i: nat)
    requires 0 < i < |ops| && Dropped(key, ops) <= gone
    ensures ReturnsFrom(key, After(key, present, ops[0]), ops[1..], gone, i - 1) ==>
              ReturnsFrom(key, present, ops, gone, i)
    ensures ReturnsFrom(key, present, ops, gone, i) ==>
            ReturnsFrom(key, After(key, present, ops[0]), ops[1..], gone, i - 1)
            || ReturnsFrom(key, present, ops, gone, 0)
    ensures forall j :: i < j < |ops| ==>
              (ArrivesFrom(key, present, ops, gone, i, j) <==>
               ArrivesFrom(key, After(key, present, ops[0]), ops[1..], gone, i - 1, j - 1))
  {
    var rest := ops[1..];
    assert rest[i - 1] == ops[i] && rest[i - 1..] == ops[i..];
    assert ops[..i][1..] == rest[..i - 1] && ops[..i][0] == ops[0];
    assert ops[0..] == ops && ops[..0] == [];
    DroppedSplit(key, ops, i);
  }

  lemma MixedFromCons<V, K>(key: V -> K, present: set<K>, ops: seq<Op<V>>, gone: set<K>)
    requires ops != [] && Dropped(key, ops) <= gone
    ensures MixedFrom(key, present, ops, gone) <==>
            || MixedFrom(key, After(key, present, ops[0]), ops[1..], gone)
            || (ReturnsFrom(key, present, ops, gone, 0) && Brings(key, present, ops[1..], gone))
  {
    hide ReturnsFrom, ArrivesFrom;
    var rest, next := ops[1..], After(key, present, ops[0]);
    if MixedFrom(key, present, ops, gone) {
      var i, j :| 0 <= i < j < |ops| && ReturnsFrom(key, present, ops, gone, i)
          && ArrivesFrom(key, present, ops, gone, i, j);
      ArrivalBrings(key, present, ops, gone, i, j);
      if i > 0 { ShiftOps(key, present, ops, gone, i); }
    }
    if MixedFrom(key, next, rest, gone) {
      var i, j :| 0 <= i < j < |rest| && ReturnsFrom(key, next, rest, gone, i)
          && ArrivesFrom(key, next, rest, gone, i, j);
      ShiftOps(key, present, ops, gone, i + 1);
      assert ArrivesFrom(key, present, ops, gone, i + 1, j + 1);
    }
    if ReturnsFrom(key, present, ops, gone, 0) && Brings(key, present, rest, gone) {
      var j :| 0 <= j < |rest| && rest[j].Put? && key(rest[j].item) !in present && key(rest[j].item) !in gone;
      FirstArrives(key, present, ops, gone, j + 1);
    }
  }

  lemma ArrivalBrings<V, K>(key: V -> K, present: set<K>, ops: seq<Op<V>>, gone: set<K>, i: nat, j: nat)
    requires i < j < |ops| && ArrivesFrom(key, present, ops, gone, i, j)
    ensures Brings(key, present, ops[1..], gone)
  {
    assert ops[1..][j - 1] == ops[j];
  }

  lemma FirstArrives<V, K>(key: V -> K, present: set<K>, ops: seq<Op<V>>, gone: set<K>, j: nat)
    requires 0 < j < |ops| && ops[j].Put? && key(ops[j].item) !in present && key(ops[j].item) !in gone
    ensures ArrivesFrom(key, present, ops, gone, 0, j)
  {
    assert ops[..0] == [];
  }

  /** An appended item of a dropped key stands before a new one exactly if its put comes first. */
  lemma {:induction false} MixedIff<V, K>(key: V -> K, present: set<K>, ops: seq<Op<V>>, gone: set<K>)
    requires Dropped(key, ops) <= gone
    ensures Mixed(key, Appended(key, present, ops), gone) <==> MixedFrom(key, present, ops, gone)
    decreases |ops|
  {
    hide Mixed, MixedFrom, Brings;
    if ops == [] {
      NotMixed(key, Appended(key, present, ops), gone);
      assert !MixedFrom(key, present, ops, gone) by { NothingMixed(key, present, ops, gone); }
    } else {
      var tail := Appended(key, After(key, present, ops[0]), ops[1..]);
      var first := ops[0].item;
      MixedIff(key, After(key, present, ops[0]), ops[1..], gone);
      MixedFromCons(key, present, ops, gone);
      BringsIff(key, After(key, present, ops[0]), ops[1..], gone);
      assert [] + tail == tail;
      assert ops[0..] == ops && ops[..0] == [];
      if ops[0].Put? && key(first) !in present && key(first) !in Dropped(key, ops[1..]) {
        assert ([first] + tail)[1..] == tail;
        MixedCons(key, [first] + tail, gone);
        SameBrings(key, present, key(first), ops[1..], gone);
      }
    }
  }

  lemma NothingMixed<V, K>(key: V -> K, present: set<K>, ops: seq<Op<V>>, gone: set<K>)
    requires ops == []
    ensures !MixedFrom(key, present, ops, gone)
  {
  }

  lemma SameBrings<V, K>(key: V -> K, present: set<K>, k: K, ops: seq<Op<V>>, gone: set<K>)
    ensures k in gone ==> (Brings(key, present, ops, gone) <==> Brings(key, present + {k}, ops, gone))
  {
  }

  lemma ReordersIff<V, K>(key: V -> K, items: seq<V>, ops: seq<Op<V>>)
    ensures MixedFrom(key, Keys(key, items), ops, Dropped(key, ops)) <==> Reorders(key, items, ops)
  {
    var gone := Dropped(key, ops);
    forall i | 0 <= i < |ops|
      ensures ReturnsFrom(key, Keys(key, items), ops, gone, i) <==> Returns(key, ops, i)
    {
      DroppedSplit(key, ops, i);
    }
    forall i, j | 0 <= i < j < |ops|
      ensures ArrivesFrom(key, Keys(key, items), ops, gone, i, j) <==> Arrives(key, items, ops, i, j)
    {
    }
  }

  /** Doing all edits again changes nothing unless they reorder. */
  lemma FoldRepeatsIff<V, K>(key: V -> K, items: seq<V>, ops: seq<Op<V>>)
    ensures Fold(key, Fold(key, items, ops), ops) == Fold(key, items, ops) <==> !Reorders(key, items, ops)
  {
    hide Fold, Appended, Mixed, MixedFrom, Reorders, Select;
    var gone, tail := Dropped(key, ops), Appended(key, Keys(key, items), ops);
    FoldTwice(key, items, ops);
    FoldSplits(key, items, ops);
    SortedIff(key, tail, gone);
    MixedIff(key, Keys(key, items), ops, gone);
    ReordersIff(key, items, ops);
    SamePrefix(Select(key, items, gone, false), Select(key, tail, gone, false) + Select(key, tail, gone, true), tail);
  }

  lemma SamePrefix<V>(a: seq<V>, b: seq<V>, c: seq<V>)
    ensures a + b == a + c <==> b == c
  {
    assert (a + b)[|a|..] == b && (a + c)[|a|..] == c;
  }
}
