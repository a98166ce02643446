/**
 * What the handlers rely on from Mongoose and MongoDB, as operations on a
 * collection held as a sequence in natural (insertion) order: ObjectId casting,
 * `findById`/`findOne` (the first record with a key), `find(filter)` (the
 * records that match, in order), `deleteOne`, and unique indexes.
 */
module Mongo {
  import opened Base
  import opened Js
  import Joi

  /** A stored ObjectId: its canonical form, 24 lower-case hexadecimal digits. */
  predicate IsId(s: string)
  {
    |s| == 24 && forall i :: 0 <= i < |s| ==> ('0' <= s[i] <= '9') || ('a' <= s[i] <= 'f')
  }

  function LowerHexDigit(c: char): char
  {
    if 'A' <= c <= 'F' then (c as int - 'A' as int + 'a' as int) as char else c
  }

  /** Mongoose's cast of a text to an ObjectId: 24 hex digits of either case; anything else is a CastError. */
  function CastId(s: string): (r: Option<string>)
    ensures r.Some? <==> Joi.IsHex24(s)
    ensures r.Some? ==> IsId(r.value) && forall i :: 0 <= i < 24 ==> r.value[i] == LowerHexDigit(s[i])
  {
    if Joi.IsHex24(s) then Some(seq(|s|, i requires 0 <= i < |s| => LowerHexDigit(s[i]))) else None
  }

  /** A stored id cast again is itself. */
  lemma CastStoredId(id: string)
    requires IsId(id)
    ensures CastId(id) == Some(id)
  {
    assert Joi.IsHex24(id);
    assert CastId(id).value == id;
  }

  /** Mongoose's cast of a request value assigned to an ObjectId path: only a hex text of 24 digits casts. */
  function CastValue(v: JsValue): (r: Option<string>)
    ensures v.Str? ==> r == CastId(v.s)
    ensures !v.Str? ==> r.None?
  {
    if v.Str? then CastId(v.s) else None
  }

  /** Mongoose's String cast of a validated value (a value of another type never reaches a save here). */
  function TextOf(v: JsValue): string
  {
    if v.Str? then v.s else ""
  }

  /** Mongoose's Number cast of a validated value: a number, or a numeric text. */
  function NumberOf(v: JsValue): real
  {
    match AsNumber(v)
    case Some(n) => n
    case None => 0.0
  }

  /** An optional text path: unset when the value is undefined. */
  function OptionalText(v: JsValue): Option<string>
  {
    if v == Undefined then None else Some(TextOf(v))
  }

  /** No two records share a key: what a unique index (or `_id`) guarantees. */
  predicate UniqueBy<T>(table: seq<T>, key: T -> string)
  {
    forall i, j :: 0 <= i < j < |table| ==> key(table[i]) != key(table[j])
  }

  /** `findOne({key: k})` / `findById(k)`: the position of the first record whose key is `k`. */
  function Find<T>(table: seq<T>, key: T -> string, k: string): (r: Option<nat>)
    ensures r.Some? ==> r.value < |table| && key(table[r.value]) == k
    ensures r.Some? ==> forall j :: 0 <= j < r.value ==> key(table[j]) != k
    ensures r.None? <==> forall j :: 0 <= j < |table| ==> key(table[j]) != k
  {
    if table == [] then None
    else if key(table[0]) == k then Some(0)
    else match Find(table[1..], key, k)
      case None => None
      case Some(i) => Some(i + 1)
  }

  /**
   * Mongoose's cast of the argument of `findById`, as the ids the query asks for: a text
   * casts as one id, and an array becomes `$in` over its elements, each cast as an id. An
   * element that does not cast, or any other value, is a cast error.
   */
  function CastQuery(v: JsValue): (r: Option<seq<string>>)
    ensures v.Str? ==> (r.Some? <==> CastId(v.s).Some?)
    ensures v.Str? && r.Some? ==> r.value == [CastId(v.s).value]
    ensures v.Arr? ==> (r.Some? <==> forall i :: 0 <= i < |v.items| ==> CastValue(v.items[i]).Some?)
    ensures v.Arr? && r.Some? ==>
      |r.value| == |v.items| && forall i :: 0 <= i < |v.items| ==> Some(r.value[i]) == CastValue(v.items[i])
    ensures !v.Str? && !v.Arr? ==> r.None?
  {
    match v
    case Str(s) => if CastId(s).Some? then Some([CastId(s).value]) else None
    case Arr(items) => CastEach(items)
    case _ => None
  }

  /** The `$in` list of an array argument: every element cast, or a cast error at the first that does not cast. */
  function CastEach(items: seq<JsValue>): (r: Option<seq<string>>)
    ensures r.Some? <==> forall i :: 0 <= i < |items| ==> CastValue(items[i]).Some?
    ensures r.Some? ==> |r.value| == |items| && forall i :: 0 <= i < |items| ==> Some(r.value[i]) == CastValue(items[i])
  {
    if items == [] then Some([])
    else match (CastValue(items[0]), CastEach(items[1..]))
      case (Some(id), Some(rest)) => Some([id] + rest)
      case _ => None
  }

  /** `findOne({key: {$in: ks}})`: the position of the first record whose key is one of `ks`. */
  function FindIn<T>(table: seq<T>, key: T -> string, ks: seq<string>): (r: Option<nat>)
    ensures r.Some? ==> r.value < |table| && key(table[r.value]) in ks
    ensures r.Some? ==> forall j :: 0 <= j < r.value ==> key(table[j]) !in ks
    ensures r.None? <==> forall j :: 0 <= j < |table| ==> key(table[j]) !in ks
  {
    if table == [] then None
    else if key(table[0]) in ks then Some(0)
    else match FindIn(table[1..], key, ks)
      case None => None
      case Some(i) => Some(i + 1)
  }

  /** `$in` over a single id finds what looking up that id finds. */
  lemma {:induction false} FindInOne<T>(table: seq<T>, key: T -> string, k: string)
    ensures FindIn(table, key, [k]) == Find(table, key, k)
  {
    if table != [] {
      FindInOne(table[1..], key, k);
    }
  }

  /** With a unique key, the record found is the only one with that key. */
  lemma FindUnique<T>(table: seq<T>, key: T -> string, k: string, j: nat)
    requires UniqueBy(table, key)
    requires j < |table| && key(table[j]) == k
    ensures Find(table, key, k) == Some(j)
  {
  }

  /** Inserting a record whose key is not yet taken keeps the key unique. */
  lemma AppendUnique<T>(table: seq<T>, key: T -> string, x: T)
    requires UniqueBy(table, key)
    requires Find(table, key, key(x)).None?
    ensures UniqueBy(table + [x], key)
  {
    var r := table + [x];
    forall i, j | 0 <= i < j < |r| ensures key(r[i]) != key(r[j]) {
      if j == |table| {
        assert r[i] == table[i];
      } else {
        assert r[i] == table[i] && r[j] == table[j];
      }
    }
  }

  /** After inserting a record whose key was not taken, looking the key up finds the new record. */
  lemma FindAppend<T>(table: seq<T>, key: T -> string, x: T)
    requires Find(table, key, key(x)).None?
    ensures Find(table + [x], key, key(x)) == Some(|table|)
  {
    var r := table + [x];
    assert r[|table|] == x;
    forall j | 0 <= j < |table| ensures key(r[j]) != key(x) {
      assert r[j] == table[j];
    }
  }

  /** A lookup depends only on the keys: two collections with the same keys position by position find the same record. */
  lemma FindSameKeys<T>(t1: seq<T>, t2: seq<T>, key: T -> string, k: string)
    requires |t1| == |t2|
    requires forall i :: 0 <= i < |t1| ==> key(t1[i]) == key(t2[i])
    ensures Find(t1, key, k) == Find(t2, key, k)
  {
    var a, b := Find(t1, key, k), Find(t2, key, k);
    if a.Some? && b.Some? {
      assert key(t2[a.value]) == k && key(t1[b.value]) == k;
    }
  }

  /** Replacing a record by one with the same key keeps the key unique. */
  lemma ReplaceUnique<T>(table: seq<T>, key: T -> string, i: nat, x: T)
    requires UniqueBy(table, key)
    requires i < |table| && key(x) == key(table[i])
    ensures UniqueBy(table[i := x], key)
  {
    var r := table[i := x];
    forall a, b | 0 <= a < b < |r| ensures key(r[a]) != key(r[b]) {
      assert key(r[a]) == key(table[a]) && key(r[b]) == key(table[b]);
    }
  }

  /** `find(filter)`: the records that satisfy the filter, in their stored order. */
  function Where<T(!new)>(table: seq<T>, keep: T -> bool): (r: seq<T>)
    ensures |r| <= |table|
    ensures forall x :: x in r <==> x in table && keep(x)
  {
    if table == [] then []
    else if keep(table[0]) then [table[0]] + Where(table[1..], keep)
    else Where(table[1..], keep)
  }

  /** Filtering a longer collection filters its prefix, then its last record. */
  lemma {:induction false} WhereSnoc<T(!new)>(table: seq<T>, x: T, keep: T -> bool)
    ensures Where(table + [x], keep) == Where(table, keep) + (if keep(x) then [x] else [])
  {
    if table != [] {
      assert (table + [x])[1..] == table[1..] + [x];
      WhereSnoc(table[1..], x, keep);
    } else {
      assert [x][1..] == [];
    }
  }

  /** The positions whose record satisfies the filter. */
  function Positions<T>(table: seq<T>, keep: T -> bool): set<nat>
  {
    set i: nat | i < |table| && keep(table[i])
  }

  /** The number of records `find(filter)` returns is the number of positions that match. */
  lemma {:induction false} WhereCount<T(!new)>(table: seq<T>, keep: T -> bool)
    ensures |Where(table, keep)| == |Positions(table, keep)|
    decreases |table|
  {
    if table == [] {
      assert Positions(table, keep) == {};
    } else {
      var n := |table| - 1;
      var front := table[..n];
      assert table == front + [table[n]];
      WhereSnoc(front, table[n], keep);
      WhereCount(front, keep);
      PositionsSnoc(table, keep);
    }
  }

  lemma PositionsSnoc<T>(table: seq<T>, keep: T -> bool)
    requires table != []
    ensures var n := |table| - 1;
      Positions(table, keep) == Positions(table[..n], keep) + (if keep(table[n]) then {n} else {})
      && n !in Positions(table[..n], keep)
  {
    var n := |table| - 1;
    var front := table[..n];
    forall i: nat | i < n ensures front[i] == table[i] { }
  }

  /** `deleteOne({key: k})`: the collection without its first record whose key is `k`. */
  function DeleteFirst<T>(table: seq<T>, key: T -> string, k: string): (r: seq<T>)
    ensures Find(table, key, k).None? ==> r == table
    ensures Find(table, key, k).Some? ==>
      var i := Find(table, key, k).value; r == table[..i] + table[i + 1..]
  {
    match Find(table, key, k)
    case None => table
    case Some(i) => table[..i] + table[i + 1..]
  }

  /**
   * Under a unique key, deleting `k` removes exactly the record with key `k`:
   * every other record stays, in its order, and the key is gone.
   */
  lemma DeleteFirstUnique<T>(table: seq<T>, key: T -> string, k: string)
    requires UniqueBy(table, key)
    ensures UniqueBy(DeleteFirst(table, key, k), key)
    ensures forall x :: x in DeleteFirst(table, key, k) <==> x in table && key(x) != k
  {
    var r := DeleteFirst(table, key, k);
    match Find(table, key, k)
    case None =>
    case Some(i) =>
      forall x | x in table && key(x) != k ensures x in r {
        var j :| 0 <= j < |table| && table[j] == x;
        if j < i { assert r[j] == x; } else { assert r[j - 1] == x; }
      }
  }

  /** Deleting keeps every other unique index unique, and keeps only records that were there. */
  lemma DeleteFirstSubset<T>(table: seq<T>, key: T -> string, other: T -> string, k: string)
    ensures forall x :: x in DeleteFirst(table, key, k) ==> x in table
    ensures UniqueBy(table, other) ==> UniqueBy(DeleteFirst(table, key, k), other)
  {
    var r := DeleteFirst(table, key, k);
    match Find(table, key, k)
    case None =>
    case Some(i) =>
      forall a | 0 <= a < |r| ensures r[a] == table[if a < i then a else a + 1] { }
      if UniqueBy(table, other) {
        forall a, b | 0 <= a < b < |r| ensures other(r[a]) != other(r[b]) {
          assert r[a] == table[if a < i then a else a + 1];
          assert r[b] == table[if b < i then b else b + 1];
        }
      }
  }
}
