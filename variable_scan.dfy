/** The identifier scanner behind parseVariables (func_scope/script.js): the matches of the
    pattern /\b[a-zA-Z][a-zA-Z0-9_]*\b/g in an expression, and the names collected from them.
    JavaScript's `\b` and `\w` here are the ASCII ones. */
module VariableScan {

  predicate IsAsciiLetter(c: char) {
    'a' <= c <= 'z' || 'A' <= c <= 'Z'
  }

  /** `\w`: a letter, a digit or the underscore. */
  predicate IsWordChar(c: char) {
    IsAsciiLetter(c) || '0' <= c <= '9' || c == '_'
  }

  /** What the pattern asks of s[p..e]: a word boundary, a letter, word characters, and a word
      boundary again. */
  predicate IsIdentifier(s: string, p: nat, e: nat) {
    && p < e <= |s|
    && IsAsciiLetter(s[p])
    && (p == 0 || !IsWordChar(s[p - 1]))
    && (forall k :: p <= k < e ==> IsWordChar(s[k]))
    && (e == |s| || !IsWordChar(s[e]))
  }

  /** A match can begin at p: a letter with no word character before it. */
  predicate StartsIdentifier(s: string, p: nat) {
    p < |s| && IsAsciiLetter(s[p]) && (p == 0 || !IsWordChar(s[p - 1]))
  }

  /** The end of the run of word characters that starts at p. */
  function WordEnd(s: string, p: nat): (e: nat)
    requires p <= |s|
    ensures p <= e <= |s|
    ensures forall k :: p <= k < e ==> IsWordChar(s[k])
    ensures e == |s| || !IsWordChar(s[e])
    ensures p < |s| && IsWordChar(s[p]) ==> p < e
    decreases |s| - p
  {
    if p < |s| && IsWordChar(s[p]) then WordEnd(s, p + 1) else p
  }

  /** The scan of the global match from position p: a match where one can begin, running to
      the end of its word, and the scan resumes after it; elsewhere the scan moves on by one. */
  function MatchesFrom(s: string, p: nat): seq<string>
    requires p <= |s|
    decreases |s| - p
  {
    if p == |s| then []
    else if StartsIdentifier(s, p) then
      var e := WordEnd(s, p);
      [s[p..e]] + MatchesFrom(s, e)
    else MatchesFrom(s, p + 1)
  }

  /** `expr.match(/\b[a-zA-Z][a-zA-Z0-9_]*\b/g) || []`. */
  function Identifiers(s: string): seq<string> {
    MatchesFrom(s, 0)
  }

  /** Where each match of MatchesFrom lies (a proof device). */
  ghost function MatchSpans(s: string, p: nat): seq<(nat, nat)>
    requires p <= |s|
    decreases |s| - p
  {
    if p == |s| then []
    else if StartsIdentifier(s, p) then
      var e := WordEnd(s, p);
      [(p, e)] + MatchSpans(s, e)
    else MatchSpans(s, p + 1)
  }

  /** An identifier ends where its word ends. */
  lemma IdentifierEndsAtWordEnd(s: string, p: nat, e: nat)
    requires IsIdentifier(s, p, e)
    ensures StartsIdentifier(s, p) && e == WordEnd(s, p)
  {
  }

  /** Every match is an identifier lying at or after p, and the spans match the matches. */
  lemma {:induction false} MatchesSound(s: string, p: nat)
    requires p <= |s|
    ensures |MatchSpans(s, p)| == |MatchesFrom(s, p)|
    ensures forall k :: 0 <= k < |MatchSpans(s, p)| ==>
      var span := MatchSpans(s, p)[k];
      p <= span.0 && IsIdentifier(s, span.0, span.1) && MatchesFrom(s, p)[k] == s[span.0..span.1]
    decreases |s| - p
  {
    if p < |s| {
      if StartsIdentifier(s, p) {
        var e := WordEnd(s, p);
        MatchesSound(s, e);
        assert MatchSpans(s, p) == [(p, e)] + MatchSpans(s, e);
        assert MatchesFrom(s, p) == [s[p..e]] + MatchesFrom(s, e);
      } else {
        MatchesSound(s, p + 1);
      }
    }
  }

  /** The matches do not overlap and come in the order of the expression. */
  lemma {:induction false} MatchesOrdered(s: string, p: nat)
    requires p <= |s|
    ensures forall k, l :: 0 <= k < l < |MatchSpans(s, p)| ==> MatchSpans(s, p)[k].1 <= MatchSpans(s, p)[l].0
    decreases |s| - p
  {
    if p < |s| {
      if StartsIdentifier(s, p) {
        var e := WordEnd(s, p);
        MatchesOrdered(s, e);
        MatchesSound(s, e);
      } else {
        MatchesOrdered(s, p + 1);
      }
    }
  }

  /** No identifier at or after p is skipped by the scan. */
  lemma {:induction false} MatchesComplete(s: string, p: nat)
    requires p <= |s|
    ensures forall q: nat, e: nat :: p <= q && IsIdentifier(s, q, e) ==> (q, e) in MatchSpans(s, p)
    decreases |s| - p
  {
    if p < |s| {
      if StartsIdentifier(s, p) {
        var e := WordEnd(s, p);
        MatchesComplete(s, e);
        forall q: nat, e': nat | p <= q && IsIdentifier(s, q, e') ensures (q, e') in MatchSpans(s, p) {
          IdentifierEndsAtWordEnd(s, q, e');
        }
      } else {
        MatchesComplete(s, p + 1);
        forall q: nat, e': nat | p <= q && IsIdentifier(s, q, e') ensures (q, e') in MatchSpans(s, p) {
          IdentifierEndsAtWordEnd(s, q, e');
        }
      }
    }
  }

  /** A name glued to a preceding digit is not an identifier: "2x" has none. */
  lemma DigitPrefixHidesName()
    ensures Identifiers("2x") == []
    ensures Identifiers("2x + y") == ["y"]
  {
    var s := "2x + y";
    assert !StartsIdentifier(s, 1) && !StartsIdentifier(s, 2) && !StartsIdentifier(s, 3) && !StartsIdentifier(s, 4);
    assert StartsIdentifier(s, 5) && WordEnd(s, 5) == 6;
    assert s[5..6] == "y" && MatchesFrom(s, 6) == [];
    assert MatchesFrom(s, 5) == ["y"];
  }

  /** The names parseVariables skips. */
  const Reserved: seq<string> := [
    "Math", "sin", "cos", "tan",
    "asin", "acos", "atan",
    "sinh", "cosh", "tanh",
    "exp", "log", "sqrt",
    "pow", "abs", "PI", "E",
    "i", "Infinity", "NaN"
  ]

  predicate NoDuplicates<T(==)>(xs: seq<T>) {
    forall i, j :: 0 <= i < j < |xs| ==> xs[i] != xs[j]
  }

  /** The position of the first occurrence of v in xs. */
  function FirstIndex<T(==)>(xs: seq<T>, v: T): (k: nat)
    requires v in xs
    ensures k < |xs| && xs[k] == v
    ensures forall q :: 0 <= q < k ==> xs[q] != v
  {
    if xs[0] == v then 0 else 1 + FirstIndex(xs[1..], v)
  }

  /** A first occurrence inside a prefix is the first occurrence in the whole sequence. */
  lemma FirstIndexInPrefix<T>(xs: seq<T>, n: nat, v: T)
    requires n <= |xs| && v in xs[..n]
    ensures FirstIndex(xs[..n], v) == FirstIndex(xs, v)
  {
    var k := FirstIndex(xs[..n], v);
    var k' := FirstIndex(xs, v);
    assert xs[k] == v;
  }

  /** The contents of the Set after the first matches were offered to it: each match that is
      not reserved and not yet present is added at the end. */
  function Collected(ms: seq<string>): seq<string> {
    if ms == [] then []
    else
      var d := Collected(ms[..|ms| - 1]);
      var m := ms[|ms| - 1];
      if m in Reserved || m in d then d else d + [m]
  }

  /** The collected names are the non-reserved matches, each once, in order of first
      occurrence. */
  lemma {:induction false} CollectedSpec(ms: seq<string>)
    ensures NoDuplicates(Collected(ms))
    ensures forall v :: v in Collected(ms) <==> v in ms && v !in Reserved
    ensures forall i, j :: 0 <= i < j < |Collected(ms)| ==>
      FirstIndex(ms, Collected(ms)[i]) < FirstIndex(ms, Collected(ms)[j])
  {
    if ms != [] {
      var n := |ms| - 1;
      var pre := ms[..n];
      var d := Collected(pre);
      var m := ms[n];
      CollectedSpec(pre);
      assert ms == pre + [m];
      forall v | v in d ensures v in pre && FirstIndex(pre, v) == FirstIndex(ms, v) {
        FirstIndexInPrefix(ms, n, v);
      }
      if !(m in Reserved || m in d) {
        assert m !in pre;
        assert FirstIndex(ms, m) == n;
        var c := d + [m];
        forall i, j | 0 <= i < j < |c| ensures FirstIndex(ms, c[i]) < FirstIndex(ms, c[j]) {
          if j == |d| {
            assert c[i] in pre;
          }
        }
      }
    }
  }
}
