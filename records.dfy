/** Menu items as the front end receives and edits them: JavaScript objects,
    that is, ordered lists of own properties.  A property's value is one of
    the JSON scalars a menu item holds. */
module Records {
  import opened Wrappers
  import opened Text
  import Seqs

  /** `undefined`, `null`, a string or an integral number. */
  datatype Value = Missing | Null | Str(text: string) | Num(number: int)

  datatype Entry = Entry(key: string, value: Value)

  /** Own properties in insertion order, which is the order `Object.entries`
      lists them in. */
  type Record = seq<Entry>

  function Keys(r: Record): (ks: seq<string>)
    ensures |ks| == |r|
    ensures forall i :: 0 <= i < |r| ==> ks[i] == r[i].key
  {
    if r == [] then [] else [r[0].key] + Keys(r[1..])
  }

  predicate UniqueKeys(r: Record) {
    Seqs.NoDuplicates(Keys(r))
  }

  /** `r[key]`: the value of the first property named `key`, `undefined` when
      there is none. */
  function Get(r: Record, key: string): (v: Value)
    ensures key !in Keys(r) ==> v == Missing
    ensures v != Missing ==> Entry(key, v) in r
  {
    if r == [] then Missing else if r[0].key == key then r[0].value else Get(r[1..], key)
  }

  /** With distinct keys, every entry is what `Get` finds under its key. */
  lemma {:induction false} GetEntry(r: Record, i: nat)
    requires UniqueKeys(r) && i < |r|
    ensures Get(r, r[i].key) == r[i].value
  {
    if i > 0 {
      assert Keys(r)[0] != Keys(r)[i];
      assert Keys(r[1..]) == Keys(r)[1..];
      GetEntry(r[1..], i - 1);
    }
  }

  /** `{ ...r, [key]: v }`: an existing property keeps its place and takes the
      new value; a new one goes last. */
  function Set(r: Record, key: string, v: Value): (s: Record)
    ensures Get(s, key) == v
    ensures forall k :: k != key ==> Get(s, k) == Get(r, k)
  {
    if r == [] then [Entry(key, v)]
    else if r[0].key == key then [Entry(key, v)] + r[1..]
    else [r[0]] + Set(r[1..], key, v)
  }

  /** The property list keeps its names in order and gains `key` at the end
      when it was not there. */
  lemma {:induction false} SetKeys(r: Record, key: string, v: Value)
    ensures key in Keys(r) ==> Keys(Set(r, key, v)) == Keys(r)
    ensures key !in Keys(r) ==> Keys(Set(r, key, v)) == Keys(r) + [key]
  {
    if r != [] && r[0].key != key {
      SetKeys(r[1..], key, v);
      assert Keys(r) == [r[0].key] + Keys(r[1..]);
      assert Keys(Set(r, key, v)) == [r[0].key] + Keys(Set(r[1..], key, v));
    }
  }

  /** Setting a property never introduces a second property of that name. */
  lemma SetKeepsUniqueKeys(r: Record, key: string, v: Value)
    requires UniqueKeys(r)
    ensures UniqueKeys(Set(r, key, v))
  {
    SetKeys(r, key, v);
    var ks := Keys(r);
    if key !in ks {
      forall i, j | 0 <= i < j < |ks| + 1 ensures (ks + [key])[i] != (ks + [key])[j] {
        if j == |ks| {
          assert ks[i] in ks;
        }
      }
    }
  }

  /** `String(v)` as `v.toString()` computes it; `None` where that call
      throws (`undefined` and `null` have no `toString`). */
  function ToStr(v: Value): (r: Option<string>)
    ensures r.None? <==> v.Missing? || v.Null?
  {
    match v
    case Str(s) => Some(s)
    case Num(n) => Some(IntToString(n))
    case _ => None
  }

  /** JavaScript truthiness: "" and 0 are falsy, like `undefined` and `null`. */
  predicate Truthy(v: Value) {
    (v.Str? && v.text != "") || (v.Num? && v.number != 0)
  }

  /** `value?.toString() || ""` */
  function FormString(v: Value): (r: string)
    ensures v.Str? ==> r == v.text
    ensures v.Num? ==> r == IntToString(v.number)
  {
    match v
    case Str(s) => s
    case Num(n) => IntToString(n)
    case _ => ""
  }

  /** The form string is empty exactly for `undefined`, `null` and "": the
      number 0 is falsy but its string "0" is not. */
  lemma FormStringEmpty(v: Value)
    ensures FormString(v) == "" <==> v == Missing || v == Null || v == Str("")
    ensures FormString(Num(0)) == "0" && !Truthy(Num(0))
  {
  }

  /** `${v}` in a template literal: `undefined` and `null` are spelled out. */
  function TemplateString(v: Value): (r: string)
    ensures ToStr(v).Some? ==> r == ToStr(v).value
    ensures v.Missing? ==> r == "undefined"
    ensures v.Null? ==> r == "null"
  {
    match v
    case Missing => "undefined"
    case Null => "null"
    case Str(s) => s
    case Num(n) => IntToString(n)
  }

  /** A string-typed property: `Some` when it holds a string. */
  function TextOf(v: Value): (r: Option<string>)
    ensures r.Some? <==> v.Str?
    ensures r.Some? ==> v == Str(r.value)
  {
    if v.Str? then Some(v.text) else None
  }
}
