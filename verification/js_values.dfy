/**
 The small part of JavaScript's value semantics the handlers rely on: optional
 request-body fields, truthiness of a string field, and the string tests
 `startsWith`, `substring` and "contains" (Airtable's SEARCH, which the
 handlers use as a containment filter).
 */
module JsValues {

  /** A request-body field that may be absent (`undefined` or `null`). */
  datatype Option<+T> = None | Some(value: T)

  /** JavaScript truthiness of an optional string field: present and non-empty. */
  predicate Truthy(v: Option<string>) {
    v.Some? && v.value != ""
  }

  /** `s.startsWith(prefix)` */
  predicate StartsWith(s: string, prefix: string) {
    |prefix| <= |s| && s[..|prefix|] == prefix
  }

  /** `t` is what is left of `s` after dropping some prefix of it. */
  predicate IsSuffix<T(==)>(t: seq<T>, s: seq<T>) {
    |t| <= |s| && s[|s| - |t|..] == t
  }

  /** `needle` occurs somewhere inside `hay` (the empty string occurs everywhere). */
  predicate Contains(hay: string, needle: string) {
    exists i :: 0 <= i <= |hay| && StartsWith(hay[i..], needle)
  }

  lemma StartsWithConcat(prefix: string, rest: string)
    ensures StartsWith(prefix + rest, prefix)
    ensures (prefix + rest)[|prefix|..] == rest
  {
    assert (prefix + rest)[..|prefix|] == prefix;
  }

  /** What follows a prefix is a suffix. */
  lemma SuffixOfConcat(prefix: string, rest: string)
    ensures IsSuffix(rest, prefix + rest)
  {
    assert (prefix + rest)[|prefix|..] == rest;
  }

  /** A string whose first character differs from the prefix's does not start with it. */
  lemma FirstCharDiffers(s: string, prefix: string)
    requires |s| > 0 && |prefix| > 0 && s[0] != prefix[0]
    ensures !StartsWith(s, prefix)
  {
    if |prefix| <= |s| {
      assert s[..|prefix|][0] == s[0];
    }
  }

  /** A string contains every one of its suffixes. */
  lemma SuffixContained(t: string, s: string)
    requires IsSuffix(t, s)
    ensures Contains(s, t)
  {
    var i := |s| - |t|;
    assert s[i..][..|t|] == t;
    assert StartsWith(s[i..], t);
  }

  /** A needle holding a character that `hay` lacks does not occur in `hay`. */
  lemma AbsentCharNotContained(hay: string, needle: string, k: nat)
    requires k < |needle|
    requires forall j :: 0 <= j < |hay| ==> hay[j] != needle[k]
    ensures !Contains(hay, needle)
  {
    forall i | 0 <= i <= |hay|
      ensures !StartsWith(hay[i..], needle)
    {
      if |needle| <= |hay[i..]| {
        assert hay[i..][..|needle|][k] == hay[i + k];
      }
    }
  }

  /** Suffixes compose: a suffix of a suffix of `s` is a suffix of `s`. */
  lemma SuffixTransitive(u: string, t: string, s: string)
    requires IsSuffix(u, t) && IsSuffix(t, s)
    ensures IsSuffix(u, s)
  {
    assert s[|s| - |u|..] == s[|s| - |t|..][|t| - |u|..];
  }
}
