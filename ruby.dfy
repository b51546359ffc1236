/**
  Ruby values as the mailers see them.

  A Ruby Hash is an insertion-ordered association list: `h[k]` finds the first
  entry with key `k` (nil when there is none), `h[k] = v` overwrites that entry
  in place or appends a new one, `delete` removes it and `merge!` stores the
  entries of another hash one after the other. Symbol keys and string keys are
  one key domain here, so `args[:from]` and `message["from"]` both look up
  `Str("from")`.
 */
module Ruby {

  datatype Value =
    | Nil
    | Bool(b: bool)
    | Int(i: int)
    | Str(s: string)
    | Arr(items: seq<Value>)
    | Hash(entries: seq<Entry>)

  datatype Entry = Entry(key: Value, val: Value)

  datatype Option<T> = None | Some(value: T)

  /** The exceptions the mailers raise, explicitly or through the Ruby runtime. */
  datatype Error =
    | InvalidMergeLanguageError(language: Value)
    | InvalidInterceptorParams
    | NotImplementedError(message: string)
    // a method called on nil, such as `nil[:from]` or `nil.map`
    | NoMethodError
    // an uninitialized class variable was read
    | NameError

  datatype Result<T> = Ok(value: T) | Err(error: Error)

  /** Only nil and false are falsy in Ruby. */
  predicate Truthy(v: Value) {
    !(v.Nil? || v == Bool(false))
  }

  /** Ruby's `a || b`: `a` when it is truthy, otherwise `b`. */
  function Or(a: Value, b: Value): Value {
    if Truthy(a) then a else b
  }

  /** `h[k]` */
  function Lookup(h: seq<Entry>, k: Value): Value {
    if |h| == 0 then Nil
    else if h[0].key == k then h[0].val
    else Lookup(h[1..], k)
  }

  /** `h[:key]` for a literal key. */
  function At(h: seq<Entry>, key: string): Value {
    Lookup(h, Str(key))
  }

  /** `h.has_key?(k)` */
  predicate HasKey(h: seq<Entry>, k: Value) {
    exists i :: 0 <= i < |h| && h[i].key == k
  }

  /** `h.fetch(k, d)` */
  function Fetch(h: seq<Entry>, k: Value, d: Value): Value {
    if HasKey(h, k) then Lookup(h, k) else d
  }

  /** `h.keys` */
  function Keys(h: seq<Entry>): seq<Value> {
    seq(|h|, i requires 0 <= i < |h| => h[i].key)
  }

  /** No value occurs twice in the list. */
  predicate Distinct(keys: seq<Value>) {
    forall i, j :: 0 <= i < j < |keys| ==> keys[i] != keys[j]
  }

  /** Every Ruby Hash has pairwise distinct keys. */
  predicate UniqueKeys(h: seq<Entry>) {
    forall i, j :: 0 <= i < j < |h| ==> h[i].key != h[j].key
  }

  /** `h[k] = v`: an existing key keeps its position, a new one goes last. */
  function Store(h: seq<Entry>, k: Value, v: Value): seq<Entry> {
    if |h| == 0 then [Entry(k, v)]
    else if h[0].key == k then [Entry(k, v)] + h[1..]
    else [h[0]] + Store(h[1..], k, v)
  }

  /** `h.delete(k)`, as far as the hash is concerned. */
  function Delete(h: seq<Entry>, k: Value): seq<Entry> {
    if |h| == 0 then []
    else if h[0].key == k then Delete(h[1..], k)
    else [h[0]] + Delete(h[1..], k)
  }

  /** `h.merge!(o)`: the entries of `o` are stored into `h` in order. */
  function Merge(h: seq<Entry>, o: seq<Entry>): seq<Entry>
    decreases |o|
  {
    if |o| == 0 then h
    else Merge(Store(h, o[0].key, o[0].val), o[1..])
  }

  predicate IsSpace(c: char) {
    c == ' ' || c == '\t' || c == '\n' || c == '\r' || c == '\U{000C}' || c == '\U{000B}'
  }

  /** ActiveSupport's `blank?`: nil, false, whitespace-only strings and empty collections. */
  predicate Blank(v: Value) {
    match v
    case Nil => true
    case Bool(b) => !b
    case Int(_) => false
    case Str(s) => forall i :: 0 <= i < |s| ==> IsSpace(s[i])
    case Arr(items) => |items| == 0
    case Hash(entries) => |entries| == 0
  }

  lemma {:induction false} LookupFirst(h: seq<Entry>, i: nat)
    requires i < |h|
    requires forall j :: 0 <= j < i ==> h[j].key != h[i].key
    ensures Lookup(h, h[i].key) == h[i].val
  {
    if i > 0 {
      LookupFirst(h[1..], i - 1);
    }
  }

  /** The two-entry literal `{k1 => v1, k2 => v2}`. */
  lemma LookupPair(k1: Value, v1: Value, k2: Value, v2: Value)
    requires k1 != k2
    ensures var h := [Entry(k1, v1), Entry(k2, v2)];
      Keys(h) == [k1, k2] && Lookup(h, k1) == v1 && Lookup(h, k2) == v2
  {
    LookupFirst([Entry(k1, v1), Entry(k2, v2)], 1);
  }

  /** The three-entry literal `{k1 => v1, k2 => v2, k3 => v3}`. */
  lemma LookupTriple(k1: Value, v1: Value, k2: Value, v2: Value, k3: Value, v3: Value)
    requires k1 != k2 && k1 != k3 && k2 != k3
    ensures var h := [Entry(k1, v1), Entry(k2, v2), Entry(k3, v3)];
      Keys(h) == [k1, k2, k3] && Lookup(h, k1) == v1 && Lookup(h, k2) == v2 && Lookup(h, k3) == v3
  {
    var h := [Entry(k1, v1), Entry(k2, v2), Entry(k3, v3)];
    LookupFirst(h, 1);
    LookupFirst(h, 2);
  }

  lemma {:induction false} LookupMissing(h: seq<Entry>, k: Value)
    requires !HasKey(h, k)
    ensures Lookup(h, k) == Nil
  {
    if |h| > 0 {
      assert !HasKey(h[1..], k) by {
        forall i | 0 <= i < |h[1..]| ensures h[1..][i].key != k {
          assert h[1..][i] == h[i + 1];
        }
      }
      LookupMissing(h[1..], k);
    }
  }

  lemma HasKeyTail(h: seq<Entry>, k: Value)
    requires |h| > 0
    ensures HasKey(h, k) <==> h[0].key == k || HasKey(h[1..], k)
  {
    if HasKey(h[1..], k) {
      var i :| 0 <= i < |h[1..]| && h[1..][i].key == k;
      assert h[i + 1].key == k;
    }
    if HasKey(h, k) && h[0].key != k {
      var i :| 0 <= i < |h| && h[i].key == k;
      assert h[1..][i - 1].key == k;
    }
  }

  /** Assigning a key changes the value under that key and no other. */
  lemma {:induction false} StoreLookup(h: seq<Entry>, k: Value, v: Value, q: Value)
    ensures Lookup(Store(h, k, v), q) == if q == k then v else Lookup(h, q)
  {
    if |h| > 0 && h[0].key != k {
      StoreLookup(h[1..], k, v, q);
    }
  }

  lemma {:induction false} StoreHasKey(h: seq<Entry>, k: Value, v: Value, q: Value)
    ensures HasKey(Store(h, k, v), q) <==> q == k || HasKey(h, q)
  {
    var s := Store(h, k, v);
    if |h| == 0 {
      assert s[0].key == k;
    } else if h[0].key == k {
      HasKeyTail(s, q);
      HasKeyTail(h, q);
      assert s[1..] == h[1..];
    } else {
      HasKeyTail(s, q);
      HasKeyTail(h, q);
      assert s[1..] == Store(h[1..], k, v);
      StoreHasKey(h[1..], k, v, q);
    }
  }

  /** Assigning an existing key keeps the key order; a new key is appended. */
  lemma {:induction false} StoreKeys(h: seq<Entry>, k: Value, v: Value)
    ensures Keys(Store(h, k, v)) == if HasKey(h, k) then Keys(h) else Keys(h) + [k]
  {
    var s := Store(h, k, v);
    if |h| == 0 {
    } else if h[0].key == k {
      assert HasKey(h, k);
      assert Keys(s) == Keys(h);
    } else {
      HasKeyTail(h, k);
      StoreKeys(h[1..], k, v);
      assert s == [h[0]] + Store(h[1..], k, v);
      assert Keys(s) == [h[0].key] + Keys(Store(h[1..], k, v));
      assert Keys(h) == [h[0].key] + Keys(h[1..]);
    }
  }

  lemma {:induction false} StoreUnique(h: seq<Entry>, k: Value, v: Value)
    requires UniqueKeys(h)
    ensures UniqueKeys(Store(h, k, v))
  {
    StoreKeys(h, k, v);
    var s := Store(h, k, v);
    forall i, j | 0 <= i < j < |s| ensures s[i].key != s[j].key {
      assert Keys(s)[i] == s[i].key && Keys(s)[j] == s[j].key;
      if !HasKey(h, k) && j == |h| {
        assert Keys(h)[i] == h[i].key;
      }
    }
  }

  /** Deleting a key leaves nothing under it and every other key as it was. */
  lemma {:induction false} DeleteLookup(h: seq<Entry>, k: Value, q: Value)
    ensures Lookup(Delete(h, k), q) == if q == k then Nil else Lookup(h, q)
  {
    if |h| > 0 {
      DeleteLookup(h[1..], k, q);
    }
  }

  lemma {:induction false} DeleteHasKey(h: seq<Entry>, k: Value, q: Value)
    ensures HasKey(Delete(h, k), q) <==> q != k && HasKey(h, q)
  {
    if |h| > 0 {
      var d := Delete(h, k);
      HasKeyTail(h, q);
      DeleteHasKey(h[1..], k, q);
      if h[0].key != k {
        HasKeyTail(d, q);
        assert d[1..] == Delete(h[1..], k);
      }
    }
  }

  /** After `h.merge!(o)` the keys of `o` carry `o`'s values and every other key keeps `h`'s. */
  lemma {:induction false} MergeLookup(h: seq<Entry>, o: seq<Entry>, q: Value)
    requires UniqueKeys(o)
    ensures Lookup(Merge(h, o), q) == if HasKey(o, q) then Lookup(o, q) else Lookup(h, q)
    decreases |o|
  {
    if |o| > 0 {
      var h' := Store(h, o[0].key, o[0].val);
      assert UniqueKeys(o[1..]) by {
        forall i, j | 0 <= i < j < |o[1..]| ensures o[1..][i].key != o[1..][j].key {
          assert o[1..][i] == o[i + 1] && o[1..][j] == o[j + 1];
        }
      }
      MergeLookup(h', o[1..], q);
      StoreLookup(h, o[0].key, o[0].val, q);
      HasKeyTail(o, q);
      if q == o[0].key {
        assert !HasKey(o[1..], q) by {
          forall i | 0 <= i < |o[1..]| ensures o[1..][i].key != q {
            assert o[1..][i] == o[i + 1];
          }
        }
      }
    }
  }

  /** `h.merge!(o)` has the keys of both hashes. */
  lemma {:induction false} MergeHasKey(h: seq<Entry>, o: seq<Entry>, q: Value)
    ensures HasKey(Merge(h, o), q) <==> HasKey(h, q) || HasKey(o, q)
    decreases |o|
  {
    if |o| > 0 {
      MergeHasKey(Store(h, o[0].key, o[0].val), o[1..], q);
      StoreHasKey(h, o[0].key, o[0].val, q);
      HasKeyTail(o, q);
    }
  }

  /** `h.merge!(o)` keeps the keys of `h` first, in their order. */
  lemma {:induction false} MergeKeysPrefix(h: seq<Entry>, o: seq<Entry>)
    ensures |Merge(h, o)| >= |h|
    ensures Keys(Merge(h, o))[..|h|] == Keys(h)
    decreases |o|
  {
    if |o| > 0 {
      var h' := Store(h, o[0].key, o[0].val);
      StoreKeys(h, o[0].key, o[0].val);
      MergeKeysPrefix(h', o[1..]);
      assert Keys(h')[..|h|] == Keys(h);
      assert |Keys(h')| >= |h|;
      assert Keys(Merge(h', o[1..]))[..|h'|] == Keys(h');
      assert Keys(Merge(h', o[1..]))[..|h|] == Keys(h')[..|h|];
    }
  }

  /** A mutable Ruby Hash passed by reference, such as the argument hash of `mandrill_mail`. */
  class HashRef {
    var entries: seq<Entry>

    constructor (entries: seq<Entry>)
      ensures this.entries == entries
    {
      this.entries := entries;
    }

    function Get(k: Value): Value
      reads this
    {
      Lookup(entries, k)
    }

    /** `h[k] = v` */
    method Put(k: Value, v: Value)
      modifies this
      ensures entries == Store(old(entries), k, v)
    {
      entries := Store(entries, k, v);
    }

    /** `h.delete(k)`: removes the key and returns what it held (nil when absent). */
    method Take(k: Value) returns (v: Value)
      modifies this
      ensures v == Lookup(old(entries), k)
      ensures entries == Delete(old(entries), k)
    {
      v := Lookup(entries, k);
      entries := Delete(entries, k);
    }
  }
}
