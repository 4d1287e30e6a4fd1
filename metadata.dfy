/**
 * Metadata of the log handler: a map from key to value, its pretty rendering
 * (`prettify`) and the merge of per-call metadata over the handler's own.
 * Values are modelled as their text.
 */
module Metadata {
  import opened Wrappers
  import opened Strings
  import opened StringOrder

  type Map = map<string, string>

  /** One rendered entry: `key: "value"`. */
  function Entry(key: string, value: string): string {
    key + ": \"" + value + "\""
  }

  /** The rendered entries of `m` for the keys `ks`, in that order. */
  function Entries(m: Map, ks: seq<string>): (r: seq<string>)
    requires forall k :: k in ks ==> k in m
  {
    seq(|ks|, i requires 0 <= i < |ks| => Entry(ks[i], m[ks[i]]))
  }

  /** `prettify`: nothing for an empty map, otherwise every entry in ascending
      key order, separated by single spaces. */
  function Prettify(m: Map): (r: Option<string>)
    ensures r.None? <==> |m| == 0
  {
    if |m| == 0 then None else Some(Join(Entries(m, SortedKeys(m.Keys)), " "))
  }

  /** The pretty text of a non-empty map is the join, with single spaces, of one
      `key: "value"` entry per key, taken in ANY strictly ascending enumeration
      of the keys; the enumeration has exactly one element per key. */
  lemma PrettifyFormat(m: Map, ks: seq<string>)
    requires |m| > 0
    requires StrictlyIncreasing(ks)
    requires forall k :: k in ks <==> k in m
    ensures |ks| == |m|
    ensures Prettify(m) == Some(Join(Entries(m, ks), " "))
  {
    SortedKeysCharacterised(ks, m.Keys);
  }

  /** The pretty text begins with the entry of the least key and ends with the
      entry of the greatest: there is no leading or trailing separator. */
  lemma PrettifyEnds(m: Map, least: string, greatest: string)
    requires IsLeast(least, m.Keys) && IsGreatest(greatest, m.Keys)
    ensures Prettify(m).Some?
    ensures Entry(least, m[least]) <= Prettify(m).value
    ensures EndsWith(Prettify(m).value, Entry(greatest, m[greatest]))
  {
    assert least in m.Keys;
    var ks := SortedKeys(m.Keys);
    SortedEnds(ks, m.Keys);
    LeastUnique(m.Keys);
    GreatestUnique(m.Keys);
    JoinEnds(Entries(m, ks), " ");
  }

  /** Per-call metadata laid over the handler's (`merging` keeping the new
      value): every key of either map, the per-call value winning a clash. */
  function Merge(defaults: Map, perCall: Map): (r: Map)
    ensures r.Keys == defaults.Keys + perCall.Keys
    ensures forall k :: k in perCall ==> r[k] == perCall[k]
    ensures forall k :: k in defaults && k !in perCall ==> r[k] == defaults[k]
  {
    defaults + perCall
  }

  /** Handler metadata `a: "1"`, `b: "2"` with per-call `b: "9"` renders as
      `a: "1" b: "9"`. */
  lemma MergeExample()
    ensures Prettify(Merge(map["a" := "1", "b" := "2"], map["b" := "9"])) == Some("a: \"1\" b: \"9\"")
  {
    assert Less("a", "b");
    MergeOverTwoKeys("a", "1", "2", "b", "9");
    ExampleEntries();
  }

  /** For keys `a` before `b`, handler metadata `a`, `b` merged with a per-call
      value for `b` renders as `a`'s handler entry, then `b`'s per-call entry. */
  lemma MergeOverTwoKeys(a: string, va: string, vb: string, b: string, vc: string)
    requires Less(a, b)
    ensures Prettify(Merge(map[a := va, b := vb], map[b := vc])) == Some(Entry(a, va) + " " + Entry(b, vc))
  {
    LessIrreflexive(a);
    var m := map[a := va, b := vc];
    assert Merge(map[a := va, b := vb], map[b := vc]) == m;
    TwoKeyFormat(m, a, va, b, vc);
  }

  lemma ExampleEntries()
    ensures Entry("a", "1") + " " + Entry("b", "9") == "a: \"1\" b: \"9\""
  {
  }

  /** A two-key map renders as its two entries, the smaller key first. */
  lemma TwoKeyFormat(m: Map, a: string, va: string, b: string, vb: string)
    requires m == map[a := va, b := vb] && Less(a, b)
    ensures Prettify(m) == Some(Entry(a, va) + " " + Entry(b, vb))
  {
    LessIrreflexive(a);
    var ks := [a, b];
    assert forall k :: k in ks <==> k in m;
    PrettifyFormat(m, ks);
    var x, y := Entry(a, va), Entry(b, vb);
    assert Entries(m, ks) == [x, y];
    assert [x, y][1..] == [y];
  }
}
