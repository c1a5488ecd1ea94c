/**
 * The JavaScript string operations the extension relies on, over `seq<char>`:
 * `String.prototype.endsWith`, `split('.')` and `Array.prototype.join('.')`.
 */
module Strings {

  /** `s.endsWith(suffix)`. */
  predicate EndsWith(s: string, suffix: string)
  {
    |suffix| <= |s| && s[|s| - |suffix|..] == suffix
  }

  lemma EndsWithAppended(prefix: string, suffix: string)
    ensures EndsWith(prefix + suffix, suffix)
  {
    assert (prefix + suffix)[|prefix|..] == suffix;
  }

  /**
   * `s.split('.')`: the maximal dot-free pieces of `s`, in order. As in JavaScript the
   * result is never empty (`"".split('.')` is `[""]`) and empty pieces are kept.
   */
  function Split(s: string): (labels: seq<string>)
    ensures |labels| >= 1
    ensures forall i :: 0 <= i < |labels| ==> '.' !in labels[i]
    decreases |s|
  {
    if s == [] then [[]]
    else
      var rest := Split(s[1..]);
      if s[0] == '.' then [[]] + rest
      else [[s[0]] + rest[0]] + rest[1..]
  }

  /** `labels.join('.')`; the empty array joins to the empty string. */
  function Join(labels: seq<string>): string
  {
    if |labels| == 0 then []
    else if |labels| == 1 then labels[0]
    else labels[0] + "." + Join(labels[1..])
  }

  /** Joining splits back: no character of the input is lost or invented by `Split`. */
  lemma {:induction false} JoinSplit(s: string)
    ensures Join(Split(s)) == s
    decreases |s|
  {
    if s != [] {
      var rest := Split(s[1..]);
      JoinSplit(s[1..]);
      if s[0] == '.' {
        assert Split(s) == [[]] + rest;
      } else {
        var first := [s[0]] + rest[0];
        assert Split(s) == [first] + rest[1..];
        if |rest| == 1 {
          assert Join(Split(s)) == first;
        } else {
          assert ([first] + rest[1..])[1..] == rest[1..];
          assert Join(Split(s)) == first + "." + Join(rest[1..]);
          assert Join(rest) == rest[0] + "." + Join(rest[1..]);
        }
      }
    }
  }

  /** A dot-free string is a single label. */
  lemma {:induction false} SplitDotFree(a: string)
    requires '.' !in a
    ensures Split(a) == [a]
    decreases |a|
  {
    if a != [] {
      assert '.' !in a[1..] by {
        forall i | 0 <= i < |a[1..]| ensures a[1..][i] != '.' { assert a[1..][i] == a[i + 1]; }
      }
      SplitDotFree(a[1..]);
      assert [a[0]] + a[1..] == a;
    }
  }

  /** Splitting at the first dot: a dot-free label followed by a dot contributes exactly that label. */
  lemma {:induction false} SplitAtFirstDot(a: string, t: string)
    requires '.' !in a
    ensures Split(a + "." + t) == [a] + Split(t)
    decreases |a|
  {
    var s := a + "." + t;
    if a == [] {
      assert s == "." + t;
      assert s[1..] == t;
    } else {
      assert s[1..] == a[1..] + "." + t;
      assert '.' !in a[1..] by {
        forall i | 0 <= i < |a[1..]| ensures a[1..][i] != '.' { assert a[1..][i] == a[i + 1]; }
      }
      SplitAtFirstDot(a[1..], t);
      assert [a[0]] + a[1..] == a;
    }
  }
}
