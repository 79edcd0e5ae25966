/**
 * String operations the components rely on: JavaScript's `String.prototype.trim`
 * and the code-unit order used by `Array.prototype.sort()` without a comparator
 * and by `localeCompare` on ISO dates.
 */
module Text {
  import Seqs

  /** The characters `trim` removes: ECMAScript WhiteSpace and LineTerminator code points. */
  predicate IsSpace(c: char) {
    c == '\t' || c == '\n' || c == '\U{000B}' || c == '\U{000C}' || c == '\r' || c == ' '
    || c == '\U{00A0}' || c == '\U{1680}' || ('\U{2000}' <= c <= '\U{200A}')
    || c == '\U{2028}' || c == '\U{2029}' || c == '\U{202F}' || c == '\U{205F}'
    || c == '\U{3000}' || c == '\U{FEFF}'
  }

  /** Neither end of `s` is whitespace. */
  predicate Unpadded(s: string) {
    s == [] || (!IsSpace(s[0]) && !IsSpace(s[|s| - 1]))
  }

  /** `s` without its leading whitespace. */
  function TrimStart(s: string): (r: string)
    ensures |r| <= |s| && r == s[|s| - |r|..]
    ensures r == [] || !IsSpace(r[0])
    ensures forall k :: 0 <= k < |s| - |r| ==> IsSpace(s[k])
  {
    if s != [] && IsSpace(s[0]) then TrimStart(s[1..]) else s
  }

  /** `s` without its trailing whitespace. */
  function TrimEnd(s: string): (r: string)
    ensures |r| <= |s| && r == s[..|r|]
    ensures r == [] || !IsSpace(r[|r| - 1])
    ensures forall k :: |r| <= k < |s| ==> IsSpace(s[k])
  {
    if s != [] && IsSpace(s[|s| - 1]) then TrimEnd(s[..|s| - 1]) else s
  }

  /** `String.prototype.trim`. */
  function Trim(s: string): (r: string)
    ensures Unpadded(r)
    ensures |r| <= |s|
  {
    TrimEnd(TrimStart(s))
  }

  /** A string with no whitespace at either end is its own trim. */
  lemma TrimUnpadded(s: string)
    requires Unpadded(s)
    ensures Trim(s) == s
  {
  }

  /** Trimming twice is trimming once, so comparisons of trimmed strings may trim again. */
  lemma TrimIdempotent(s: string)
    ensures Trim(Trim(s)) == Trim(s)
  {
    TrimUnpadded(Trim(s));
  }

  /** Code-unit lexicographic order: `a < b` on JavaScript strings. */
  predicate Less(a: string, b: string)
    decreases |a|
  {
    b != [] && (a == [] || a[0] < b[0] || (a[0] == b[0] && Less(a[1..], b[1..])))
  }

  lemma {:induction false} LessIrreflexive(a: string)
    ensures !Less(a, a)
    decreases |a|
  {
    if a != [] {
      LessIrreflexive(a[1..]);
    }
  }

  lemma {:induction false} LessTransitive(a: string, b: string, c: string)
    requires Less(a, b) && Less(b, c)
    ensures Less(a, c)
    decreases |a|
  {
    if a != [] && a[0] == b[0] && b[0] == c[0] {
      LessTransitive(a[1..], b[1..], c[1..]);
    }
  }

  /** Any two different strings are ordered one way. */
  lemma {:induction false} LessTotal(a: string, b: string)
    requires a != b
    ensures Less(a, b) || Less(b, a)
    decreases |a|
  {
    if a != [] && b != [] && a[0] == b[0] {
      assert a == [a[0]] + a[1..] && b == [b[0]] + b[1..];
      LessTotal(a[1..], b[1..]);
    }
  }

  lemma {:induction false} LessAsymmetric(a: string, b: string)
    requires Less(a, b)
    ensures !Less(b, a)
  {
    if Less(b, a) {
      LessTransitive(a, b, a);
      LessIrreflexive(a);
    }
  }

  /** No element is smaller than one before it. */
  predicate Ascending(s: seq<string>) {
    forall i, j :: 0 <= i < j < |s| ==> !Less(s[j], s[i])
  }

  /** Every element is smaller than every later one (so no duplicates either). */
  predicate StrictlyAscending(s: seq<string>) {
    forall i, j :: 0 <= i < j < |s| ==> Less(s[i], s[j])
  }

  /** Puts `x` before the first element that is not smaller than it. */
  function InsertAsc(x: string, s: seq<string>): (r: seq<string>)
    ensures multiset(r) == multiset(s) + multiset{x}
    ensures |r| == |s| + 1
  {
    if s == [] then [x]
    else if Less(s[0], x) then
      assert s == [s[0]] + s[1..];
      [s[0]] + InsertAsc(x, s[1..])
    else [x] + s
  }

  lemma {:induction false} InsertAscSorted(x: string, s: seq<string>)
    requires Ascending(s)
    ensures Ascending(InsertAsc(x, s))
  {
    var r := InsertAsc(x, s);
    if s != [] {
      if Less(s[0], x) {
        var t := InsertAsc(x, s[1..]);
        InsertAscSorted(x, s[1..]);
        forall k | 0 <= k < |t| ensures !Less(t[k], s[0]) {
          assert t[k] in multiset(t);
          if t[k] == x {
            LessAsymmetric(s[0], x);
          } else {
            assert t[k] in multiset(s[1..]);
            var j :| 0 <= j < |s[1..]| && s[1..][j] == t[k];
            assert s[j + 1] == t[k];
          }
        }
        assert forall k :: 1 <= k < |r| ==> r[k] == t[k - 1];
      } else {
        forall j | 0 <= j < |s| ensures !Less(s[j], x) {
          if Less(s[j], x) && j > 0 {
            if s[j] != s[0] {
              LessTotal(s[j], s[0]);
              LessTransitive(s[0], s[j], x);
            }
          }
        }
        assert forall k :: 1 <= k < |r| ==> r[k] == s[k - 1];
      }
    }
  }

  lemma {:induction false} InsertAscNoDups(x: string, s: seq<string>)
    requires Seqs.NoDups(s) && x !in s
    ensures Seqs.NoDups(InsertAsc(x, s))
  {
    if s != [] && Less(s[0], x) {
      var t := InsertAsc(x, s[1..]);
      assert s == [s[0]] + s[1..];
      InsertAscNoDups(x, s[1..]);
      assert s[0] !in s[1..];
      assert s[0] !in multiset(s[1..]) + multiset{x};
      assert s[0] !in t;
    }
  }

  /** `Array.prototype.sort()` on strings: ascending order, same contents. */
  function SortAsc(s: seq<string>): (r: seq<string>)
    ensures multiset(r) == multiset(s)
    ensures |r| == |s|
  {
    if s == [] then []
    else
      assert s == [s[0]] + s[1..];
      InsertAsc(s[0], SortAsc(s[1..]))
  }

  lemma {:induction false} SortAscSorted(s: seq<string>)
    ensures Ascending(SortAsc(s))
    ensures Seqs.NoDups(s) ==> Seqs.NoDups(SortAsc(s))
  {
    if s != [] {
      assert s == [s[0]] + s[1..];
      SortAscSorted(s[1..]);
      InsertAscSorted(s[0], SortAsc(s[1..]));
      if Seqs.NoDups(s) {
        assert Seqs.NoDups(s[1..]);
        assert s[0] !in s[1..];
        assert s[0] !in multiset(SortAsc(s[1..]));
        InsertAscNoDups(s[0], SortAsc(s[1..]));
      }
    }
  }

  /** Sorted without duplicates means strictly ascending. */
  lemma AscendingNoDupsStrict(s: seq<string>)
    requires Ascending(s) && Seqs.NoDups(s)
    ensures StrictlyAscending(s)
  {
    forall i, j | 0 <= i < j < |s| ensures Less(s[i], s[j]) {
      LessTotal(s[i], s[j]);
    }
  }
}
