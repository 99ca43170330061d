/** The untyped filter values the compiler consumes: what a Java caller puts
    into a Map<String, Object> filter (strings, boxed numbers, booleans, lists,
    nested maps, null). A map is its iteration order as an association list;
    `linked` tells a LinkedHashMap from any other Map implementation. */
module Values {
  import opened Text

  datatype Value =
    | Null
    | Str(s: string)
    | Int(i: int)       // java.lang.Integer
    | Long(l: int)      // java.lang.Long
    | Bool(b: bool)
    | List(items: seq<Value>)
    | Map(linked: bool, entries: seq<(string, Value)>)

  type Entries = seq<(string, Value)>

  function Keys(es: Entries): (ks: seq<string>)
    ensures |ks| == |es| && forall i :: 0 <= i < |es| ==> ks[i] == es[i].0
  {
    seq(|es|, i requires 0 <= i < |es| => es[i].0)
  }

  /** What a Java map guarantees: no key occurs twice. */
  predicate DistinctKeys(es: Entries) {
    forall i, j :: 0 <= i < j < |es| ==> es[i].0 != es[j].0
  }

  predicate ContainsKey(es: Entries, k: string) {
    k in Keys(es)
  }

  /** Map.get: the value under k, or null when k is absent. */
  function Get(es: Entries, k: string): (v: Value)
    ensures !ContainsKey(es, k) ==> v == Null
    ensures ContainsKey(es, k) ==> exists i :: 0 <= i < |es| && es[i].0 == k && es[i].1 == v
    decreases |es|
  {
    if |es| == 0 then Null
    else if es[0].0 == k then es[0].1
    else (assert Keys(es) == [es[0].0] + Keys(es[1..]); Get(es[1..], k))
  }

  /** A one-entry map holds its value under its key and nothing else. */
  lemma GetSingle(k: string, v: Value, q: string)
    ensures Get([(k, v)], q) == if k == q then v else Null
  {
    assert [(k, v)][1..] == [];
  }

  /** Map.put on a LinkedHashMap: a present key keeps its position and gets the
      new value; an absent key is appended. */
  function Put(es: Entries, k: string, v: Value): (r: Entries)
    decreases |es|
  {
    if |es| == 0 then [(k, v)]
    else if es[0].0 == k then [(k, v)] + es[1..]
    else [es[0]] + Put(es[1..], k, v)
  }

  /** Map.remove: the entry under k disappears, the others keep their order. */
  function Remove(es: Entries, k: string): (r: Entries)
    decreases |es|
  {
    if |es| == 0 then []
    else if es[0].0 == k then Remove(es[1..], k)
    else [es[0]] + Remove(es[1..], k)
  }

  /** Map.values, in iteration order. */
  function ValuesOf(es: Entries): (vs: seq<Value>)
    ensures |vs| == |es| && forall i :: 0 <= i < |es| ==> vs[i] == es[i].1
  {
    seq(|es|, i requires 0 <= i < |es| => es[i].1)
  }

  lemma KeysCons(es: Entries)
    requires |es| > 0
    ensures Keys(es) == [es[0].0] + Keys(es[1..])
  {
  }

  /** Reading back after Map.put. */
  lemma {:induction false} GetPut(es: Entries, k: string, v: Value, q: string)
    ensures Get(Put(es, k, v), q) == if q == k then v else Get(es, q)
    ensures ContainsKey(Put(es, k, v), q) <==> q == k || ContainsKey(es, q)
    decreases |es|
  {
    if |es| > 0 {
      KeysCons(es);
      KeysCons(Put(es, k, v));
      if es[0].0 != k {
        GetPut(es[1..], k, v, q);
      } else {
        assert Put(es, k, v)[1..] == es[1..];
      }
    }
  }

  /** The keys after Map.put: unchanged when k was present, k appended otherwise. */
  lemma {:induction false} KeysPut(es: Entries, k: string, v: Value)
    ensures Keys(Put(es, k, v)) == if ContainsKey(es, k) then Keys(es) else Keys(es) + [k]
    decreases |es|
  {
    if |es| > 0 {
      KeysCons(es);
      KeysCons(Put(es, k, v));
      if es[0].0 != k {
        KeysPut(es[1..], k, v);
        assert Put(es, k, v)[1..] == Put(es[1..], k, v);
      } else {
        assert Put(es, k, v)[1..] == es[1..];
      }
    }
  }

  /** Map.put keeps keys distinct, and an absent key is appended. */
  lemma {:induction false} PutKeys(es: Entries, k: string, v: Value)
    requires DistinctKeys(es)
    ensures DistinctKeys(Put(es, k, v))
    ensures !ContainsKey(es, k) ==> Put(es, k, v) == es + [(k, v)]
    decreases |es|
  {
    KeysPut(es, k, v);
    var r := Put(es, k, v);
    assert |r| == |Keys(r)|;
    forall i, j | 0 <= i < j < |r| ensures r[i].0 != r[j].0 {
      assert Keys(r)[i] == r[i].0 && Keys(r)[j] == r[j].0;
      if j < |es| { assert Keys(es)[i] == es[i].0 && Keys(es)[j] == es[j].0; }
    }
    if !ContainsKey(es, k) {
      PutAbsent(es, k, v);
    }
  }

  lemma {:induction false} PutAbsent(es: Entries, k: string, v: Value)
    requires !ContainsKey(es, k)
    ensures Put(es, k, v) == es + [(k, v)]
    decreases |es|
  {
    if |es| > 0 {
      KeysCons(es);
      PutAbsent(es[1..], k, v);
      assert Put(es, k, v) == [es[0]] + (es[1..] + [(k, v)]);
      ConsSnoc(es, (k, v));
    }
  }

  /** Putting the head back in front of the tail with e appended is es with
      e appended. */
  lemma ConsSnoc(es: Entries, e: (string, Value))
    requires |es| > 0
    ensures [es[0]] + (es[1..] + [e]) == es + [e]
  {
    assert es == [es[0]] + es[1..];
  }

  /** Reading back after Map.remove. */
  lemma {:induction false} GetRemove(es: Entries, k: string, q: string)
    ensures Get(Remove(es, k), q) == if q == k then Null else Get(es, q)
    ensures ContainsKey(Remove(es, k), q) <==> q != k && ContainsKey(es, q)
    decreases |es|
  {
    if |es| > 0 {
      KeysCons(es);
      GetRemove(es[1..], k, q);
      if es[0].0 != k {
        assert Remove(es, k)[1..] == Remove(es[1..], k);
        KeysCons(Remove(es, k));
      }
    }
  }

  /** Strings as a list of String values, in order (Arrays.asList, List.of). */
  function Strs(ss: seq<string>): (vs: seq<Value>)
    ensures |vs| == |ss| && forall i :: 0 <= i < |ss| ==> vs[i] == Str(ss[i])
  {
    seq(|ss|, i requires 0 <= i < |ss| => Str(ss[i]))
  }

  /** Size of a value, for termination of the recursions over nested filters. */
  function Size(v: Value): nat
    decreases v
  {
    match v
    case List(items) => 1 + ItemsSize(items)
    case Map(_, es) => 1 + EntriesSize(es)
    case _ => 1
  }

  function ItemsSize(items: seq<Value>): nat
    decreases items
  {
    if |items| == 0 then 0 else Size(items[0]) + ItemsSize(items[1..])
  }

  function EntriesSize(es: Entries): nat
    decreases es
  {
    if |es| == 0 then 0
    else
      var x := es[0].1;
      assert x < es[0];
      Size(x) + 1 + EntriesSize(es[1..])
  }

  lemma {:induction false} EntryValueSmaller(es: Entries, i: int)
    requires 0 <= i < |es|
    ensures Size(es[i].1) < EntriesSize(es)
    decreases |es|
  {
    if i > 0 { EntryValueSmaller(es[1..], i - 1); }
  }

  /** Object.toString of a value: AbstractCollection / AbstractMap formats. */
  function ToString(v: Value): string
    decreases v
  {
    match v
    case Null => "null"
    case Str(s) => s
    case Int(i) => IntToString(i)
    case Long(l) => IntToString(l)
    case Bool(b) => if b then "true" else "false"
    case List(items) => "[" + ItemsString(items) + "]"
    case Map(_, es) => "{" + EntriesString(es) + "}"
  }

  function ItemsString(items: seq<Value>): string
    decreases items
  {
    if |items| == 0 then ""
    else if |items| == 1 then ToString(items[0])
    else ToString(items[0]) + ", " + ItemsString(items[1..])
  }

  function EntriesString(es: Entries): string
    decreases es
  {
    if |es| == 0 then ""
    else
      var (k, x) := es[0];
      assert x < es[0];
      if |es| == 1 then k + "=" + ToString(x)
      else k + "=" + ToString(x) + ", " + EntriesString(es[1..])
  }
}
