/**
 * The `--autocreate-labels` parser of the command line (cli.go): every `key=value` argument
 * becomes one label. The key is the text before the first `=`, the value everything after it
 * (later `=` kept), an argument without `=` is a key with the empty value, and a repeated key
 * takes the value of its last occurrence.
 */
module Cli {
  import opened Wrappers

  const Separator: char := '='

  /** The position of the first `c` in `s`, if any. */
  function FirstIndex(s: string, c: char): (r: Option<nat>)
    ensures r.Some? ==> r.value < |s| && s[r.value] == c && c !in s[..r.value]
    ensures r.None? <==> c !in s
  {
    if s == [] then None
    else if s[0] == c then Some(0)
    else
      match FirstIndex(s[1..], c)
      case None => None
      case Some(i) =>
        assert s[..i + 1] == [s[0]] + s[1..][..i];
        Some(i + 1)
  }

  /**
   * `strings.Split(s, sep)` for a one-character separator: the pieces between separators, in
   * order; the empty text gives one empty piece, and n separators give n + 1 pieces.
   */
  function Split(s: string, sep: char): (parts: seq<string>)
    ensures |parts| >= 1
    ensures forall k :: 0 <= k < |parts| ==> sep !in parts[k]
    decreases |s|
  {
    match FirstIndex(s, sep)
    case None => [s]
    case Some(i) => [s[..i]] + Split(s[i + 1..], sep)
  }

  /** `strings.Join(parts, sep)`: the pieces with one separator between neighbours. */
  function Join(parts: seq<string>, sep: char): string {
    if |parts| == 0 then ""
    else if |parts| == 1 then parts[0]
    else parts[0] + [sep] + Join(parts[1..], sep)
  }

  /** Joining the pieces of a split gives back the text. */
  lemma {:induction false} JoinSplit(s: string, sep: char)
    ensures Join(Split(s, sep), sep) == s
    decreases |s|
  {
    match FirstIndex(s, sep)
    case None =>
    case Some(i) =>
      var rest := Split(s[i + 1..], sep);
      assert Split(s, sep) == [s[..i]] + rest;
      JoinSplit(s[i + 1..], sep);
      assert ([s[..i]] + rest)[1..] == rest;
      assert s == s[..i] + [sep] + s[i + 1..];
  }

  /** The label key of one argument: all of it, or the text before its first `=`. */
  function LabelKey(pair: string): (key: string)
    ensures Separator !in key
    ensures Separator !in pair ==> key == pair
  {
    match FirstIndex(pair, Separator)
    case None => pair
    case Some(i) => pair[..i]
  }

  /** The label value of one argument: empty without `=`, else everything after the first `=`. */
  function LabelValue(pair: string): (value: string)
    ensures Separator !in pair ==> value == ""
  {
    match FirstIndex(pair, Separator)
    case None => ""
    case Some(i) => pair[i + 1..]
  }

  /**
   * Key and value reassemble the argument: with a `=` the argument is the key, one `=` and
   * the value, which may itself hold `=`; without one it is the key alone.
   */
  lemma KeyValueReassemble(pair: string)
    ensures Separator in pair ==> pair == LabelKey(pair) + [Separator] + LabelValue(pair)
    ensures Separator !in pair ==> pair == LabelKey(pair) && LabelValue(pair) == ""
  {
    match FirstIndex(pair, Separator)
    case None =>
    case Some(i) =>
      assert pair == pair[..i] + [Separator] + pair[i + 1..];
  }

  /** A separator with none before it is the first one. */
  lemma {:induction false} FirstIndexAt(s: string, c: char, i: nat)
    requires i < |s| && s[i] == c && c !in s[..i]
    ensures FirstIndex(s, c) == Some(i)
  {
    if i > 0 {
      assert s[0] == s[..i][0];
      assert s[1..][..i - 1] == s[..i][1..];
      FirstIndexAt(s[1..], c, i - 1);
    }
  }

  /** Conversely, `key=value` with a key free of `=` parses back to that key and value. */
  lemma KeyValueOfAssembled(key: string, value: string)
    requires Separator !in key
    ensures LabelKey(key + [Separator] + value) == key
    ensures LabelValue(key + [Separator] + value) == value
  {
    var pair := key + [Separator] + value;
    assert pair[..|key|] == key && pair[|key| + 1..] == value;
    FirstIndexAt(pair, Separator, |key|);
  }

  /** The key and value the loop takes from `strings.Split(pair, "=")` are `LabelKey` and `LabelValue`. */
  lemma {:induction false} SplitGivesKeyValue(pair: string)
    ensures Split(pair, Separator)[0] == LabelKey(pair)
    ensures (if |Split(pair, Separator)| > 1 then Join(Split(pair, Separator)[1..], Separator) else "")
            == LabelValue(pair)
  {
    match FirstIndex(pair, Separator)
    case None =>
    case Some(i) =>
      var rest := Split(pair[i + 1..], Separator);
      assert Split(pair, Separator) == [pair[..i]] + rest;
      assert ([pair[..i]] + rest)[1..] == rest;
      JoinSplit(pair[i + 1..], Separator);
  }

  /** The labels the arguments describe: each argument in turn sets its key, so a later one overrides. */
  function Labels(kvPairs: seq<string>): map<string, string>
    decreases |kvPairs|
  {
    if kvPairs == [] then map[]
    else
      var last := kvPairs[|kvPairs| - 1];
      Labels(kvPairs[..|kvPairs| - 1])[LabelKey(last) := LabelValue(last)]
  }

  /** parseLabelsKeyValuePairs */
  method ParseLabelsKeyValuePairs(kvPairs: seq<string>) returns (out: map<string, string>)
    ensures out == Labels(kvPairs)
  {
    out := map[];
    for i := 0 to |kvPairs|
      invariant out == Labels(kvPairs[..i])
    {
      var pair := kvPairs[i];
      var splitPair := Split(pair, Separator);
      var key := splitPair[0];
      var value := "";
      if |splitPair| > 1 {
        value := Join(splitPair[1..], Separator);
      }
      SplitGivesKeyValue(pair);
      assert key == LabelKey(pair) && value == LabelValue(pair);
      assert kvPairs[..i + 1][..i] == kvPairs[..i];
      assert Labels(kvPairs[..i + 1]) == Labels(kvPairs[..i])[LabelKey(pair) := LabelValue(pair)];
      out := out[key := value];
    }
    assert kvPairs[..|kvPairs|] == kvPairs;
  }

  // Properties of the parsed labels

  /** The label keys are exactly the keys of the arguments; no arguments give no labels. */
  lemma {:induction false} LabelsKeys(kvPairs: seq<string>)
    ensures Labels(kvPairs).Keys == set i | 0 <= i < |kvPairs| :: LabelKey(kvPairs[i])
    decreases |kvPairs|
  {
    if kvPairs != [] {
      var n := |kvPairs| - 1;
      var prefix := kvPairs[..n];
      LabelsKeys(prefix);
      assert forall i :: 0 <= i < n ==> prefix[i] == kvPairs[i];
      assert (set i | 0 <= i < |kvPairs| :: LabelKey(kvPairs[i]))
          == (set i | 0 <= i < n :: LabelKey(prefix[i])) + {LabelKey(kvPairs[n])};
    }
  }

  /** Of several arguments with one key, the last decides the value. */
  lemma {:induction false} LabelsLastWins(kvPairs: seq<string>, i: nat)
    requires i < |kvPairs|
    requires forall j :: i < j < |kvPairs| ==> LabelKey(kvPairs[j]) != LabelKey(kvPairs[i])
    ensures LabelKey(kvPairs[i]) in Labels(kvPairs)
    ensures Labels(kvPairs)[LabelKey(kvPairs[i])] == LabelValue(kvPairs[i])
    decreases |kvPairs|
  {
    var n := |kvPairs| - 1;
    if i < n {
      var prefix := kvPairs[..n];
      assert forall j :: i < j < n ==> prefix[j] == kvPairs[j];
      LabelsLastWins(prefix, i);
    }
  }

  /** Every label comes from some argument whose key and value it carries. */
  lemma {:induction false} LabelsFromArguments(kvPairs: seq<string>, key: string)
    requires key in Labels(kvPairs)
    ensures exists i :: 0 <= i < |kvPairs| && LabelKey(kvPairs[i]) == key && LabelValue(kvPairs[i]) == Labels(kvPairs)[key]
    decreases |kvPairs|
  {
    var n := |kvPairs| - 1;
    if LabelKey(kvPairs[n]) != key {
      var prefix := kvPairs[..n];
      LabelsFromArguments(prefix, key);
      var i :| 0 <= i < n && LabelKey(prefix[i]) == key && LabelValue(prefix[i]) == Labels(prefix)[key];
      assert prefix[i] == kvPairs[i];
    }
  }

  /** `a=b=c` is the label `a` with value `b=c`; `flag` alone is the label `flag` with value "". */
  lemma {:induction false} SampleArguments()
    ensures Labels(["a=b=c", "flag"]) == map["a" := "b=c", "flag" := ""]
  {
    var ab, f := "a=b=c", "flag";
    assert FirstIndex(ab, Separator) == Some(1);
    assert ab[..1] == "a" && ab[2..] == "b=c";
    assert LabelKey(ab) == "a" && LabelValue(ab) == "b=c";
    assert LabelKey(f) == "flag" && LabelValue(f) == "";
    var both, one, none: seq<string> := [ab, f], [ab], [];
    assert both[..1] == one && one[..0] == none;
    assert Labels(one) == map["a" := "b=c"];
  }
}
