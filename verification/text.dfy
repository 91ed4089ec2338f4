/**
 * The string operations the portal applies to slash-delimited storage paths and to
 * file names: `split("/")`, `filter(Boolean)`, `join("/")`, `endsWith`, `includes` and
 * `toLowerCase`. Strings are sequences of characters.
 *
 * `Split`, `Join` and `NonEmpty` are defined by recursion from the END of their
 * argument, which is the end at which paths grow and shrink.
 */
module Text {
  import opened Sequences

  // ---------------------------------------------------------------------------
  // Case and substring tests
  // ---------------------------------------------------------------------------

  /** `toLowerCase` on one character, for the ASCII letters. */
  function LowerChar(c: char): char {
    if 'A' <= c <= 'Z' then (c as int + 32) as char else c
  }

  /** `toLowerCase` on a string, for the ASCII letters: same length, no upper-case ASCII letter left. */
  function Lower(s: string): (r: string)
    ensures |r| == |s|
    ensures forall i :: 0 <= i < |r| ==> !('A' <= r[i] <= 'Z')
    ensures forall i :: 0 <= i < |s| && !('A' <= s[i] <= 'Z') ==> r[i] == s[i]
    ensures forall i :: 0 <= i < |s| && 'A' <= s[i] <= 'Z' ==>
              'a' <= r[i] <= 'z' && r[i] as int - 'a' as int == s[i] as int - 'A' as int
  {
    seq(|s|, i requires 0 <= i < |s| => LowerChar(s[i]))
  }

  lemma LowerIdempotent(s: string)
    ensures Lower(Lower(s)) == Lower(s)
  {
  }

  /** `s.endsWith(suffix)`. */
  predicate EndsWith(s: string, suffix: string) {
    |suffix| <= |s| && s[|s| - |suffix|..] == suffix
  }

  /** `s.startsWith(prefix)`. */
  predicate StartsWith(s: string, prefix: string) {
    |prefix| <= |s| && s[..|prefix|] == prefix
  }

  /** `s.includes(needle)`: some position of `s` starts an occurrence of `needle`. */
  predicate Contains(s: string, needle: string)
    decreases |s|
  {
    StartsWith(s, needle) || (|s| > 0 && Contains(s[1..], needle))
  }

  /** `needle` occurs in `s` starting at offset `k`. */
  predicate OccursAt(s: string, needle: string, k: nat) {
    k + |needle| <= |s| && s[k..k + |needle|] == needle
  }

  /** `includes` finds an occurrence exactly when `needle` occurs at some offset of `s`. */
  lemma {:induction false} ContainsAtOffset(s: string, needle: string)
    ensures Contains(s, needle) <==> exists k: nat :: OccursAt(s, needle, k)
    decreases |s|
  {
    if StartsWith(s, needle) {
      assert OccursAt(s, needle, 0);
    } else if |s| > 0 {
      ContainsAtOffset(s[1..], needle);
      if exists k: nat :: OccursAt(s, needle, k) {
        var k: nat :| OccursAt(s, needle, k);
        assert k != 0;
        assert s[1..][k - 1..k - 1 + |needle|] == s[k..k + |needle|];
        assert OccursAt(s[1..], needle, k - 1);
      }
      if exists k: nat :: OccursAt(s[1..], needle, k) {
        var k: nat :| OccursAt(s[1..], needle, k);
        assert s[1..][k..k + |needle|] == s[k + 1..k + 1 + |needle|];
        assert OccursAt(s, needle, k + 1);
      }
    } else {
      assert forall k: nat :: !OccursAt(s, needle, k);
    }
  }

  /**
   * Lexicographic order on strings, character by character; on ISO `YYYY-MM-DD` dates it is
   * the chronological order.
   */
  predicate LexLe(a: string, b: string)
    decreases |a|
  {
    a == [] || (b != [] && (a[0] < b[0] || (a[0] == b[0] && LexLe(a[1..], b[1..]))))
  }

  lemma {:induction false} LexTotal(a: string, b: string)
    ensures LexLe(a, b) || LexLe(b, a)
    decreases |a|
  {
    if a != [] && b != [] && a[0] == b[0] {
      LexTotal(a[1..], b[1..]);
    }
  }

  lemma {:induction false} LexTransitive(a: string, b: string, c: string)
    requires LexLe(a, b) && LexLe(b, c)
    ensures LexLe(a, c)
    decreases |a|
  {
    if a != [] && a[0] == b[0] && b[0] == c[0] {
      LexTransitive(a[1..], b[1..], c[1..]);
    }
  }

  // ---------------------------------------------------------------------------
  // Paths: split("/"), filter(Boolean), join("/")
  // ---------------------------------------------------------------------------

  /** `s.split("/")`: the pieces between slashes, empty ones included; never empty. */
  function Split(s: string): (parts: seq<string>)
    ensures |parts| >= 1
    decreases |s|
  {
    if s == [] then [""]
    else
      var init := Split(s[..|s| - 1]);
      var c := s[|s| - 1];
      if c == '/' then init + [""]
      else init[..|init| - 1] + [init[|init| - 1] + [c]]
  }

  /** `parts.join("/")`. */
  function Join(parts: seq<string>): string
    decreases |parts|
  {
    if |parts| == 0 then ""
    else if |parts| == 1 then parts[0]
    else Join(parts[..|parts| - 1]) + "/" + parts[|parts| - 1]
  }

  /** `parts.filter(Boolean)`: the non-empty strings, in order. */
  function NonEmpty(parts: seq<string>): (r: seq<string>)
    ensures forall i :: 0 <= i < |r| ==> r[i] != ""
    ensures forall i :: 0 <= i < |r| ==> r[i] in parts
    ensures forall x :: multiset(r)[x] == if x == "" then 0 else multiset(parts)[x]
    ensures SubsequenceOf(r, parts)
    decreases |parts|
  {
    if |parts| == 0 then []
    else
      var init := NonEmpty(parts[..|parts| - 1]);
      var last := parts[|parts| - 1];
      assert parts == parts[..|parts| - 1] + [last];
      SnocSubsequence(init, parts[..|parts| - 1], last);
      if last == "" then init else init + [last]
  }

  /** The non-empty segments of a path: `s.split("/").filter(Boolean)`. */
  function Segments(s: string): (r: seq<string>)
    ensures forall i :: 0 <= i < |r| ==> r[i] != "" && '/' !in r[i]
  {
    SplitSlashFree(s);
    NonEmpty(Split(s))
  }

  /** No piece of a list contains a slash. */
  predicate SlashFree(parts: seq<string>) {
    forall i :: 0 <= i < |parts| ==> '/' !in parts[i]
  }

  /** A path all of whose pieces are non-empty: no leading, trailing or doubled slash. */
  predicate WellFormedPath(s: string) {
    forall i :: 0 <= i < |Split(s)| ==> Split(s)[i] != ""
  }

  // ---------------------------------------------------------------------------
  // Lemmas about Split, Join and NonEmpty
  // ---------------------------------------------------------------------------

  /** The pieces of a split never contain the separator. */
  lemma {:induction false} SplitSlashFree(s: string)
    ensures SlashFree(Split(s))
    decreases |s|
  {
    if s != [] {
      SplitSlashFree(s[..|s| - 1]);
      var init := Split(s[..|s| - 1]);
      var k := |init| - 1;
      if s[|s| - 1] != '/' {
        assert '/' !in init[k];
        assert forall i :: 0 <= i < k ==> init[..k][i] == init[i];
      }
    }
  }

  /** Joining the pieces of a split gives the string back. */
  lemma {:induction false} JoinSplit(s: string)
    ensures Join(Split(s)) == s
    decreases |s|
  {
    if s != [] {
      var t := s[..|s| - 1];
      var c := s[|s| - 1];
      var init := Split(t);
      JoinSplit(t);
      var k := |init| - 1;
      if c == '/' {
        assert (init + [""])[..|init|] == init;
        assert s == t + "/" + "";
      } else if k == 0 {
        assert s == t + [c];
      } else {
        var parts := init[..k] + [init[k] + [c]];
        assert parts[..k] == init[..k];
        assert init[..k] == init[..|init| - 1];
        assert Join(init) == Join(init[..k]) + "/" + init[k];
        assert s == t + [c];
      }
    }
  }

  /** A string without slashes splits into itself alone. */
  lemma {:induction false} SplitWithoutSlash(s: string)
    requires '/' !in s
    ensures Split(s) == [s]
    decreases |s|
  {
    if s != [] {
      var t := s[..|s| - 1];
      assert forall c :: c in t ==> c in s;
      SplitWithoutSlash(t);
      assert s == t + [s[|s| - 1]];
    }
  }

  /** Appending "/" and a slash-free name appends exactly one piece. */
  lemma {:induction false} SplitAppend(p: string, n: string)
    requires '/' !in n
    ensures Split(p + "/" + n) == Split(p) + [n]
    decreases |n|
  {
    var s := p + "/" + n;
    if n == [] {
      assert s[..|s| - 1] == p;
    } else {
      var n' := n[..|n| - 1];
      assert forall c :: c in n' ==> c in n;
      SplitAppend(p, n');
      assert s[..|s| - 1] == p + "/" + n';
      assert n == n' + [n[|n| - 1]];
      var init := Split(p) + [n'];
      assert init[..|init| - 1] == Split(p);
    }
  }

  /** Splitting a join of non-empty list of slash-free pieces recovers the pieces. */
  lemma {:induction false} SplitJoin(parts: seq<string>)
    requires |parts| >= 1 && SlashFree(parts)
    ensures Split(Join(parts)) == parts
    decreases |parts|
  {
    if |parts| == 1 {
      SplitWithoutSlash(parts[0]);
    } else {
      var init := parts[..|parts| - 1];
      assert SlashFree(init) by {
        assert forall i :: 0 <= i < |init| ==> init[i] == parts[i];
      }
      SplitJoin(init);
      SplitAppend(Join(init), parts[|parts| - 1]);
      assert init + [parts[|parts| - 1]] == parts;
    }
  }

  /** Filtering a list with no empty string leaves it unchanged. */
  lemma {:induction false} NonEmptyKeepsAll(parts: seq<string>)
    requires forall i :: 0 <= i < |parts| ==> parts[i] != ""
    ensures NonEmpty(parts) == parts
    decreases |parts|
  {
    if |parts| > 0 {
      var init := parts[..|parts| - 1];
      NonEmptyKeepsAll(init);
      assert init + [parts[|parts| - 1]] == parts;
    }
  }

  /** Filtering keeps the pieces free of slashes. */
  lemma NonEmptySlashFree(parts: seq<string>)
    requires SlashFree(parts)
    ensures SlashFree(NonEmpty(parts))
  {
    var r := NonEmpty(parts);
    forall i | 0 <= i < |r| ensures '/' !in r[i] {
      var j :| 0 <= j < |parts| && parts[j] == r[i];
    }
  }

  /** Filtered pieces of a path, then joined and split again, are unchanged. */
  lemma SegmentsOfJoin(parts: seq<string>)
    requires |parts| >= 1 && SlashFree(parts)
    requires forall i :: 0 <= i < |parts| ==> parts[i] != ""
    ensures Segments(Join(parts)) == parts
  {
    SplitJoin(parts);
    NonEmptyKeepsAll(parts);
  }

  /** A path ending in a slash splits with an empty last piece. */
  lemma TrailingSlashSplit(s: string)
    requires EndsWith(s, "/")
    ensures Split(s)[|Split(s)| - 1] == ""
  {
    assert s[|s| - 1] == '/';
  }

  /** A well-formed path that is not empty does not end with a slash. */
  lemma WellFormedNoTrailingSlash(s: string)
    requires s != "" && WellFormedPath(s)
    ensures !EndsWith(s, "/")
  {
    if EndsWith(s, "/") {
      TrailingSlashSplit(s);
    }
  }

  /** The segments of a well-formed path extended by one name are its pieces plus that name. */
  lemma ChildSegments(p: string, name: string)
    requires WellFormedPath(p)
    requires name != "" && '/' !in name
    ensures Segments(p + "/" + name) == Split(p) + [name]
  {
    SplitAppend(p, name);
    NonEmptyKeepsAll(Split(p) + [name]);
  }
}
