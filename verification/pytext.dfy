/** Python's string operations as the places tool uses them:
    `s.split(sep)` with an explicit separator, `sep.join(parts)`,
    `s.split()` on runs of whitespace, and `sep in s`. */
module PyText {
  import opened Results

  /** `sep` occurs in `s` starting at index `i`. */
  predicate OccursAt(s: string, sep: string, i: nat) {
    i + |sep| <= |s| && s[i..i + |sep|] == sep
  }

  /** The first occurrence of `sep` in `s` at or after index `i`. */
  function FindFrom(s: string, sep: string, i: nat): (r: Option<nat>)
    requires i <= |s|
    ensures r.Some? ==> i <= r.value && OccursAt(s, sep, r.value)
    ensures r.Some? ==> forall j | i <= j < r.value :: !OccursAt(s, sep, j)
    ensures r.None? ==> forall j | i <= j <= |s| :: !OccursAt(s, sep, j)
    decreases |s| - i
  {
    if i + |sep| > |s| then None
    else if s[i..i + |sep|] == sep then Some(i)
    else FindFrom(s, sep, i + 1)
  }

  /** `s.find(sep)`, with None for Python's -1. */
  function Find(s: string, sep: string): Option<nat> {
    FindFrom(s, sep, 0)
  }

  /** `sep in s`. */
  predicate Contains(s: string, sep: string) {
    Find(s, sep).Some?
  }

  /** `s.split(sep)`: the pieces between the non-overlapping occurrences of
      `sep`, found left to right; empty pieces are kept. */
  function Split(s: string, sep: string): (r: seq<string>)
    requires sep != []
    ensures |r| >= 1
    decreases |s|
  {
    match Find(s, sep)
    case None => [s]
    case Some(i) => [s[..i]] + Split(s[i + |sep|..], sep)
  }

  /** `sep.join(parts)`. */
  function Join(parts: seq<string>, sep: string): string {
    if |parts| == 0 then ""
    else if |parts| == 1 then parts[0]
    else parts[0] + sep + Join(parts[1..], sep)
  }

  /** No proper suffix of `sep` is also a prefix of it, so two occurrences
      of `sep` can never overlap. "<br/>" and every one-character separator
      have this property. */
  predicate Unbordered(sep: string) {
    forall k | 0 < k < |sep| :: !IsBorder(sep, k)
  }

  /** The suffix of `sep` from `k` equals the prefix of the same length. */
  predicate IsBorder(sep: string, k: nat)
    requires k <= |sep|
  {
    sep[k..] == sep[..|sep| - k]
  }

  /** Number of occurrences of the character `c` in `s`: `s.count(c)`. */
  function CountChar(s: string, c: char): nat {
    if s == [] then 0 else (if s[0] == c then 1 else 0) + CountChar(s[1..], c)
  }

  // ---------------------------------------------------------------------
  // Properties of Split and Join

  lemma OccursInPrefix(s: string, sep: string, n: nat, j: nat)
    requires n <= |s| && OccursAt(s[..n], sep, j)
    ensures OccursAt(s, sep, j)
  {
    assert s[..n][j..j + |sep|] == s[j..j + |sep|];
  }

  lemma ContainsOccurs(s: string, sep: string, j: nat)
    requires OccursAt(s, sep, j)
    ensures Contains(s, sep)
  {
  }

  /** Every piece of a split is free of the separator. */
  lemma {:induction false} SplitPiecesClean(s: string, sep: string)
    requires sep != []
    ensures forall k | 0 <= k < |Split(s, sep)| :: !Contains(Split(s, sep)[k], sep)
    decreases |s|
  {
    match Find(s, sep)
    case None =>
    case Some(i) =>
      SplitPiecesClean(s[i + |sep|..], sep);
      if Contains(s[..i], sep) {
        var j := Find(s[..i], sep).value;
        OccursInPrefix(s, sep, i, j);
        assert false;
      }
      assert Split(s, sep)[1..] == Split(s[i + |sep|..], sep);
  }

  /** Splitting and joining back with the same separator is the identity. */
  lemma {:induction false} JoinSplit(s: string, sep: string)
    requires sep != []
    ensures Join(Split(s, sep), sep) == s
    decreases |s|
  {
    match Find(s, sep)
    case None =>
    case Some(i) =>
      var rest := Split(s[i + |sep|..], sep);
      JoinSplit(s[i + |sep|..], sep);
      var parts := [s[..i]] + rest;
      assert Split(s, sep) == parts;
      assert parts[0] == s[..i] && parts[1..] == rest && |parts| >= 2;
      assert Join(parts, sep) == s[..i] + sep + Join(rest, sep);
      assert s[i..i + |sep|] == sep;
      assert s == s[..i] + s[i..i + |sep|] + s[i + |sep|..];
  }

  /** A split of `a + sep + b` cuts first right after `a`, provided `a`
      holds no separator and occurrences of `sep` cannot overlap. */
  lemma SplitCons(a: string, sep: string, b: string)
    requires sep != [] && Unbordered(sep) && !Contains(a, sep)
    ensures Split(a + sep + b, sep) == [a] + Split(b, sep)
  {
    var s := a + sep + b;
    var n := |sep|;
    assert s[|a|..|a| + n] == sep;
    assert OccursAt(s, sep, |a|);
    var i := Find(s, sep).value;
    if i < |a| {
      if i + n <= |a| {
        assert s[i..i + n] == a[i..i + n];
        assert OccursAt(a, sep, i);
        ContainsOccurs(a, sep, i);
        assert false;
      } else {
        BorderFromOverlap(s, sep, i, |a|);
        assert false;
      }
    }
    assert i == |a|;
    assert s[..i] == a;
    assert s[i + n..] == b;
  }

  /** Two overlapping occurrences of `sep` exhibit a border of `sep`. */
  lemma BorderFromOverlap(s: string, sep: string, i: nat, m: nat)
    requires OccursAt(s, sep, i) && OccursAt(s, sep, m) && i < m < i + |sep|
    ensures IsBorder(sep, m - i)
  {
    var n, k := |sep|, m - i;
    assert sep[k..] == s[m..i + n];
    assert s[m..i + n] == sep[..n - k];
  }

  /** Joining separator-free pieces and splitting again gives the pieces back. */
  lemma {:induction false} SplitJoin(parts: seq<string>, sep: string)
    requires sep != [] && Unbordered(sep) && |parts| >= 1
    requires forall k | 0 <= k < |parts| :: !Contains(parts[k], sep)
    ensures Split(Join(parts, sep), sep) == parts
  {
    if |parts| == 1 {
      assert Split(parts[0], sep) == [parts[0]];
    } else {
      SplitJoin(parts[1..], sep);
      SplitCons(parts[0], sep, Join(parts[1..], sep));
      assert parts == [parts[0]] + parts[1..];
    }
  }

  /** For a one-character separator, `c in s` is `Contains(s, [c])`. */
  lemma ContainsChar(s: string, c: char)
    ensures Contains(s, [c]) <==> c in s
  {
    if Contains(s, [c]) {
      var j := Find(s, [c]).value;
      assert s[j..j + 1] == [c];
      assert s[j] == c;
    }
    if c in s {
      var j :| 0 <= j < |s| && s[j] == c;
      assert s[j..j + 1] == [c];
      assert OccursAt(s, [c], j);
    }
  }

  lemma SingleCharUnbordered(c: char)
    ensures Unbordered([c])
  {
  }

  lemma {:induction false} CountCharAppend(a: string, b: string, c: char)
    ensures CountChar(a + b, c) == CountChar(a, c) + CountChar(b, c)
  {
    if a != [] {
      assert (a + b)[0] == a[0];
      assert (a + b)[1..] == a[1..] + b;
      CountCharAppend(a[1..], b, c);
    } else {
      assert a + b == b;
    }
  }

  lemma {:induction false} CountCharAbsent(s: string, c: char)
    requires c !in s
    ensures CountChar(s, c) == 0
  {
    if s != [] {
      CountCharAbsent(s[1..], c);
    }
  }

  /** Splitting on one character yields one more piece than the character
      has occurrences: `len(s.split(c)) == s.count(c) + 1`. */
  lemma {:induction false} SplitCount(s: string, c: char)
    ensures |Split(s, [c])| == CountChar(s, c) + 1
    decreases |s|
  {
    match Find(s, [c])
    case None =>
      ContainsChar(s, c);
      CountCharAbsent(s, c);
    case Some(i) =>
      SplitCount(s[i + 1..], c);
      assert s[i..i + 1] == [c];
      assert s == s[..i] + [c] + s[i + 1..];
      CountCharAppend(s[..i] + [c], s[i + 1..], c);
      CountCharAppend(s[..i], [c], c);
      SplitPiecesClean(s, [c]);
      assert Split(s, [c])[0] == s[..i];
      ContainsChar(s[..i], c);
      CountCharAbsent(s[..i], c);
  }

  // ---------------------------------------------------------------------
  // Whitespace splitting: `s.split()` with no argument

  /** The characters Python's `str.isspace` accepts, which `str.split()`
      treats as separators. */
  predicate IsSpace(c: char) {
    || c == ' '
    || ('\t' <= c <= '\r')
    || ('\U{1C}' <= c <= '\U{1F}')
    || c == '\U{85}' || c == '\U{A0}' || c == '\U{1680}'
    || ('\U{2000}' <= c <= '\U{200A}')
    || c == '\U{2028}' || c == '\U{2029}' || c == '\U{202F}'
    || c == '\U{205F}' || c == '\U{3000}'
  }

  /** A token: non-empty and free of whitespace. */
  predicate IsToken(t: string) {
    t != [] && forall k | 0 <= k < |t| :: !IsSpace(t[k])
  }

  predicate AllSpace(w: string) {
    forall k | 0 <= k < |w| :: IsSpace(w[k])
  }

  /** Index of the first whitespace character at or after `i`, or `|s|`. */
  function TokenEnd(s: string, i: nat): (j: nat)
    requires i <= |s|
    ensures i <= j <= |s|
    ensures forall k | i <= k < j :: !IsSpace(s[k])
    ensures j < |s| ==> IsSpace(s[j])
    decreases |s| - i
  {
    if i == |s| || IsSpace(s[i]) then i else TokenEnd(s, i + 1)
  }

  /** `s.split()`: the maximal runs of non-whitespace, in order. */
  function Fields(s: string): (r: seq<string>)
    ensures forall k | 0 <= k < |r| :: IsToken(r[k])
    decreases |s|
  {
    if s == [] then []
    else if IsSpace(s[0]) then Fields(s[1..])
    else
      var j := TokenEnd(s, 0);
      [s[..j]] + Fields(s[j..])
  }

  /** Leading whitespace does not change `s.split()`. */
  lemma {:induction false} FieldsSkipSpace(w: string, s: string)
    requires AllSpace(w)
    ensures Fields(w + s) == Fields(s)
  {
    if w != [] {
      assert (w + s)[0] == w[0] && IsSpace(w[0]);
      assert (w + s)[1..] == w[1..] + s;
      assert Fields(w + s) == Fields(w[1..] + s);
      FieldsSkipSpace(w[1..], s);
    } else {
      assert w + s == s;
    }
  }

  /** A token followed by whitespace (or by nothing) is the first field. */
  lemma FieldsToken(t: string, s: string)
    requires IsToken(t) && (s == [] || IsSpace(s[0]))
    ensures Fields(t + s) == [t] + Fields(s)
  {
    var u := t + s;
    var j := TokenEnd(u, 0);
    assert forall k | 0 <= k < |t| :: u[k] == t[k];
    if s != [] {
      assert u[|t|] == s[0];
    }
    assert j == |t|;
    assert u[..j] == t && u[j..] == s;
  }

  /** Tokens joined by single spaces split back into the same tokens. */
  lemma {:induction false} FieldsJoin(tokens: seq<string>)
    requires forall k | 0 <= k < |tokens| :: IsToken(tokens[k])
    ensures Fields(Join(tokens, " ")) == tokens
  {
    if |tokens| == 0 {
    } else if |tokens| == 1 {
      FieldsToken(tokens[0], "");
      assert tokens[0] + "" == tokens[0];
    } else {
      var rest := Join(tokens[1..], " ");
      FieldsToken(tokens[0], " " + rest);
      assert tokens[0] + " " + rest == tokens[0] + (" " + rest);
      FieldsSkipSpace(" ", rest);
      FieldsJoin(tokens[1..]);
      assert tokens == [tokens[0]] + tokens[1..];
    }
  }
}
