/** Position-level text predicates and the searches that give the
    JavaScript regular expressions of the markup renderer their meaning:
    which run a lazy `.*?` stops at, where a greedy `.*` backtracks to,
    and where the multiline anchors `^` and `$` sit. */
module TextSearch {
  import opened Wrappers

  /** The characters JavaScript treats as line terminators: `.` never
      matches them, and in multiline mode `^` matches right after one and
      `$` right before one. */
  predicate IsLineTerminator(c: char) {
    c == '\n' || c == '\r' || c == '\U{2028}' || c == '\U{2029}'
  }

  /** `s[i..j]` holds no line terminator, so a run of `.` can cover it. */
  predicate OnOneLine(s: string, i: nat, j: nat) {
    i <= j <= |s| && forall k :: i <= k < j ==> !IsLineTerminator(s[k])
  }

  /** `pat` occurs in `s` starting at index `i`. */
  predicate StartsAt(s: string, i: nat, pat: string) {
    i + |pat| <= |s| && s[i..i + |pat|] == pat
  }

  /** `pat` occurs somewhere in `s` (JavaScript's `String.prototype.includes`). */
  predicate Contains(s: string, pat: string) {
    exists i: nat | i <= |s| :: StartsAt(s, i, pat)
  }

  /** Multiline `^`: the start of the input or just after a line terminator. */
  predicate AtLineStart(s: string, p: nat) {
    p == 0 || (p <= |s| && IsLineTerminator(s[p - 1]))
  }

  /** A lazy `.*?` starting at `i` and followed by the literal `close`:
      the first position on the same line at which `close` starts. */
  function FindOnLine(s: string, i: nat, close: string): (r: Option<nat>)
    requires i <= |s|
    ensures r.Some? ==> i <= r.value && r.value + |close| <= |s|
    decreases |s| - i
  {
    if StartsAt(s, i, close) then Some(i)
    else if i < |s| && !IsLineTerminator(s[i]) then FindOnLine(s, i + 1, close)
    else None
  }

  /** The lazy run stops at the first start of `close` on the line, and
      finds nothing only when the line holds no `close` at all. */
  lemma {:induction false} FindOnLineSpec(s: string, i: nat, close: string)
    requires i <= |s|
    ensures var r := FindOnLine(s, i, close);
      (r.Some? ==> OnOneLine(s, i, r.value) && StartsAt(s, r.value, close)) &&
      (r.Some? ==> forall j :: i <= j < r.value ==> !StartsAt(s, j, close)) &&
      (r.None? ==> forall j :: OnOneLine(s, i, j) ==> !StartsAt(s, j, close))
    decreases |s| - i
  {
    if !StartsAt(s, i, close) && i < |s| && !IsLineTerminator(s[i]) {
      FindOnLineSpec(s, i + 1, close);
      var r := FindOnLine(s, i + 1, close);
      if r.None? {
        forall j: nat | OnOneLine(s, i, j)
          ensures !StartsAt(s, j, close)
        {
          if j > i {
            assert OnOneLine(s, i + 1, j);
          }
        }
      }
    }
  }

  /** The tail `(.*?)\]\((.*?)\)` shared by the image and link patterns, read
      from index `i`: the first capture is `s[i..q]`, the second `s[q + 2..e]`. */
  predicate PairShape(s: string, i: nat, q: nat, e: nat) {
    OnOneLine(s, i, q) && StartsAt(s, q, "](") && OnOneLine(s, q + 2, e) && StartsAt(s, e, ")")
  }

  /** JavaScript's backtracking order for `(.*?)\]\((.*?)\)`: the shortest
      first capture for which the rest can match, then for it the shortest
      second capture. */
  function FindPair(s: string, i: nat): (r: Option<(nat, nat)>)
    requires i <= |s|
    ensures r.Some? ==> i <= r.value.0 && r.value.0 + 2 <= r.value.1 < |s|
    decreases |s| - i
  {
    var close := if StartsAt(s, i, "](") then FindOnLine(s, i + 2, ")") else None;
    if close.Some? then
      Some((i, close.value))
    else if i < |s| && !IsLineTerminator(s[i]) then
      FindPair(s, i + 1)
    else
      None
  }

  /** The pair found is the first in backtracking order, and none is found
      only when there is none. */
  lemma {:induction false} FindPairSpec(s: string, i: nat)
    requires i <= |s|
    ensures var r := FindPair(s, i);
      (r.Some? ==> PairShape(s, i, r.value.0, r.value.1)) &&
      (r.Some? ==> forall q: nat, e: nat :: q < r.value.0 ==> !PairShape(s, i, q, e)) &&
      (r.Some? ==> forall e: nat :: e < r.value.1 ==> !PairShape(s, i, r.value.0, e)) &&
      (r.None? ==> forall q: nat, e: nat :: !PairShape(s, i, q, e))
    decreases |s| - i
  {
    var close := if StartsAt(s, i, "](") then FindOnLine(s, i + 2, ")") else None;
    if StartsAt(s, i, "](") {
      FindOnLineSpec(s, i + 2, ")");
    }
    NoPairAtStart(s, i, close);
    if close.None? && i < |s| && !IsLineTerminator(s[i]) {
      PairShapeStep(s, i);
      FindPairSpec(s, i + 1);
    }
  }

  /** When no closing `)` follows a `](` at `i`, no pair has its first capture empty. */
  lemma NoPairAtStart(s: string, i: nat, close: Option<nat>)
    requires i <= |s|
    requires close == if StartsAt(s, i, "](") then FindOnLine(s, i + 2, ")") else None
    requires StartsAt(s, i, "](") ==> var r := FindOnLine(s, i + 2, ")");
      (r.Some? ==> OnOneLine(s, i + 2, r.value) && StartsAt(s, r.value, ")")) &&
      (r.Some? ==> forall j :: i + 2 <= j < r.value ==> !StartsAt(s, j, ")")) &&
      (r.None? ==> forall j :: OnOneLine(s, i + 2, j) ==> !StartsAt(s, j, ")"))
    ensures close.Some? ==> PairShape(s, i, i, close.value)
    ensures close.Some? ==> forall e: nat :: e < close.value ==> !PairShape(s, i, i, e)
    ensures close.None? ==> forall e: nat :: !PairShape(s, i, i, e)
  {
  }

  /** Extending the first capture by one character that is not a line terminator. */
  lemma PairShapeStep(s: string, i: nat)
    requires i < |s| && !IsLineTerminator(s[i])
    ensures forall q: nat, e: nat :: i < q ==> (PairShape(s, i, q, e) <==> PairShape(s, i + 1, q, e))
  {
  }

  /** The first '*' at or after `i`; a `[^*]` run, unlike `.`, crosses line ends. */
  function FindStar(s: string, i: nat): (r: Option<nat>)
    requires i <= |s|
    ensures r.Some? ==> i <= r.value < |s| && s[r.value] == '*'
    decreases |s| - i
  {
    if i == |s| then None
    else if s[i] == '*' then Some(i)
    else FindStar(s, i + 1)
  }

  /** No star lies before the one found, and none at all when none is found. */
  lemma {:induction false} FindStarSpec(s: string, i: nat)
    requires i <= |s|
    ensures var r := FindStar(s, i);
      (r.Some? ==> forall k :: i <= k < r.value ==> s[k] != '*') &&
      (r.None? ==> forall k :: i <= k < |s| ==> s[k] != '*')
    decreases |s| - i
  {
    if i < |s| && s[i] != '*' {
      FindStarSpec(s, i + 1);
    }
  }

  /** `\*([^*]+)\*` matched at `q` with its closing star at `k`. */
  predicate StarShape(s: string, q: nat, k: nat) {
    q + 1 < k < |s| && s[q] == '*' && s[k] == '*' && forall m :: q < m < k ==> s[m] != '*'
  }

  /** Where `\*([^*]+)\*` starting at `q` closes; the greedy `[^*]+` leaves
      no choice, so there is at most one such position. */
  function FindStarRun(s: string, q: nat): (r: Option<nat>)
    requires q <= |s|
    ensures r.Some? ==> q + 1 < r.value < |s| && s[q] == '*'
  {
    if q < |s| && s[q] == '*' then
      match FindStar(s, q + 1)
      case Some(k) => if q + 1 < k then Some(k) else None
      case None => None
    else None
  }

  /** The run found is a star-delimited run of non-stars, and none is found
      only when there is none. */
  lemma FindStarRunSpec(s: string, q: nat)
    requires q <= |s|
    ensures var r := FindStarRun(s, q);
      (r.Some? ==> StarShape(s, q, r.value)) &&
      (r.None? ==> forall k :: !StarShape(s, q, k))
  {
    if q < |s| && s[q] == '*' {
      FindStarSpec(s, q + 1);
    }
  }

  /** The end of the line that contains index `i`: a greedy `.*` followed by
      multiline `$`. */
  function LineEnd(s: string, i: nat): (r: nat)
    requires i <= |s|
    ensures i <= r <= |s|
    ensures r == |s| || IsLineTerminator(s[r])
    decreases |s| - i
  {
    if i == |s| || IsLineTerminator(s[i]) then i else LineEnd(s, i + 1)
  }

  /** The greedy run stops at the first line terminator: all of it lies on
      one line. */
  lemma {:induction false} LineEndOnLine(s: string, i: nat)
    requires i <= |s|
    ensures OnOneLine(s, i, LineEnd(s, i))
    decreases |s| - i
  {
    if i < |s| && !IsLineTerminator(s[i]) {
      LineEndOnLine(s, i + 1);
    }
  }

  /** The last start of `pat` in `[lo, hi)`: a greedy dotAll `.*` backtracking
      from the end of the input until `pat` follows. */
  function FindLastBelow(s: string, lo: nat, hi: nat, pat: string): (r: Option<nat>)
    ensures r.Some? ==> lo <= r.value < hi && r.value + |pat| <= |s|
    decreases hi
  {
    if hi <= lo then None
    else if StartsAt(s, hi - 1, pat) then Some(hi - 1)
    else FindLastBelow(s, lo, hi - 1, pat)
  }

  /** The start found is the last one below `hi`, and none is found only
      when `[lo, hi)` holds none. */
  lemma {:induction false} FindLastBelowSpec(s: string, lo: nat, hi: nat, pat: string)
    ensures var r := FindLastBelow(s, lo, hi, pat);
      (r.Some? ==> StartsAt(s, r.value, pat)) &&
      (r.Some? ==> forall j :: r.value < j < hi ==> !StartsAt(s, j, pat)) &&
      (r.None? ==> forall j :: lo <= j < hi ==> !StartsAt(s, j, pat))
    decreases hi
  {
    if lo < hi && !StartsAt(s, hi - 1, pat) {
      FindLastBelowSpec(s, lo, hi - 1, pat);
    }
  }

  /** The last start of `pat` at or after `lo`. */
  function FindLast(s: string, lo: nat, pat: string): (r: Option<nat>)
    ensures r.Some? ==> lo <= r.value && r.value + |pat| <= |s|
  {
    FindLastBelow(s, lo, |s| + 1, pat)
  }

  /** The start found is the last in the text, and none is found only when
      there is none from `lo` on. */
  lemma FindLastSpec(s: string, lo: nat, pat: string)
    ensures var r := FindLast(s, lo, pat);
      (r.Some? ==> StartsAt(s, r.value, pat)) &&
      (r.Some? ==> forall j :: r.value < j ==> !StartsAt(s, j, pat)) &&
      (r.None? ==> forall j :: lo <= j ==> !StartsAt(s, j, pat))
  {
    FindLastBelowSpec(s, lo, |s| + 1, pat);
  }
}
