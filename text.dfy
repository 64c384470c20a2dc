/**
 * The Python 2 `str` operations the property parser is built from, over
 * `string` (= seq<char>): `split()`, `split(sep)`, `sep.join`, `strip()`,
 * `replace`, `startswith`, substring search and `list.index`.
 */
module Text {
  import opened Wrappers

  /** The characters `str.split()` and `str.strip()` treat as whitespace. */
  predicate IsSpace(c: char) {
    c == ' ' || c == '\t' || c == '\n' || c == '\r' || c as int == 11 || c as int == 12
  }

  /** `s.startswith(prefix)`; also what `re.search("^" + prefix, s)` decides for a literal prefix. */
  predicate StartsWith(s: string, prefix: string) {
    |prefix| <= |s| && s[..|prefix|] == prefix
  }

  /** `sub in s`. */
  predicate Contains(s: string, sub: string)
    decreases |s|
  {
    StartsWith(s, sub) || (s != [] && Contains(s[1..], sub))
  }

  /** `s.replace(pat, '')`: every non-overlapping occurrence, scanned left to right, is dropped. */
  function RemoveAll(s: string, pat: string): (r: string)
    requires pat != []
    ensures |r| <= |s|
    ensures !Contains(s, pat) ==> r == s
    decreases |s|
  {
    if s == [] then []
    else if StartsWith(s, pat) then RemoveAll(s[|pat|..], pat)
    else [s[0]] + RemoveAll(s[1..], pat)
  }

  /** An occurrence at the front is removed, and the scan resumes right after it. */
  lemma RemoveAllLeading(pat: string, s: string)
    requires pat != []
    ensures RemoveAll(pat + s, pat) == RemoveAll(s, pat)
  {
    assert (pat + s)[..|pat|] == pat;
    assert (pat + s)[|pat|..] == s;
  }

  /** Characters other than the pattern's first are copied through unchanged. */
  lemma {:induction false} RemoveAllKeeps(a: string, b: string, pat: string)
    requires pat != []
    requires forall i :: 0 <= i < |a| ==> a[i] != pat[0]
    ensures RemoveAll(a + b, pat) == a + RemoveAll(b, pat)
  {
    if a == [] {
      assert a + b == b;
    } else {
      var s := a + b;
      assert !StartsWith(s, pat) by {
        if |pat| <= |s| {
          assert s[..|pat|][0] == a[0];
        }
      }
      assert s[1..] == a[1..] + b;
      RemoveAllKeeps(a[1..], b, pat);
      assert RemoveAll(s, pat) == [a[0]] + RemoveAll(a[1..] + b, pat);
      assert a == [a[0]] + a[1..];
    }
  }

  /** `s.replace(a, b)` for single characters. */
  function ReplaceChar(s: string, a: char, b: char): (r: string)
    ensures |r| == |s|
    ensures a != b ==> a !in r
    ensures a !in s ==> r == s
  {
    if s == [] then [] else [if s[0] == a then b else s[0]] + ReplaceChar(s[1..], a, b)
  }

  /** Length of the run of non-space characters at the front of `s`. */
  function WordLen(s: string): (k: nat)
    ensures k <= |s|
    ensures forall i :: 0 <= i < k ==> !IsSpace(s[i])
    ensures k < |s| ==> IsSpace(s[k])
  {
    if s == [] || IsSpace(s[0]) then 0 else 1 + WordLen(s[1..])
  }

  /** A token of `str.split()`: non-empty, without whitespace. */
  predicate IsWord(w: string) {
    w != [] && forall i :: 0 <= i < |w| ==> !IsSpace(w[i])
  }

  /** `s.split()`: the maximal runs of non-space characters, in order. */
  function Words(s: string): (ws: seq<string>)
    ensures forall i :: 0 <= i < |ws| ==> IsWord(ws[i])
    decreases |s|
  {
    if s == [] then []
    else if IsSpace(s[0]) then Words(s[1..])
    else
      var k := WordLen(s);
      [s[..k]] + Words(s[k..])
  }

  /** `sep.join(parts)`. */
  function Join(parts: seq<string>, sep: string): string {
    if parts == [] then ""
    else if |parts| == 1 then parts[0]
    else parts[0] + sep + Join(parts[1..], sep)
  }

  /** `s.split(d)` with an explicit separator: empty fields are kept, and there is always a first field. */
  function Split(s: string, d: char): (parts: seq<string>)
    ensures |parts| >= 1
    ensures forall i :: 0 <= i < |parts| ==> d !in parts[i]
  {
    if s == [] then [""]
    else
      var rest := Split(s[1..], d);
      if s[0] == d then [""] + rest else [[s[0]] + rest[0]] + rest[1..]
  }

  /** `s.lstrip()`. */
  function TrimStart(s: string): string {
    if s != [] && IsSpace(s[0]) then TrimStart(s[1..]) else s
  }

  /** `s.rstrip()`. */
  function TrimEnd(s: string): string {
    if s != [] && IsSpace(s[|s| - 1]) then TrimEnd(s[..|s| - 1]) else s
  }

  /** `s.strip()`. */
  function Strip(s: string): string {
    TrimEnd(TrimStart(s))
  }

  /** `xs.index(x)` without the exception: the position of the first `x`. */
  function FirstIndexOf<T(==)>(xs: seq<T>, x: T): (r: Option<nat>)
    ensures r.Some? ==> r.value < |xs| && xs[r.value] == x && x !in xs[..r.value]
    ensures r.None? <==> x !in xs
  {
    if xs == [] then None
    else if xs[0] == x then Some(0)
    else
      match FirstIndexOf(xs[1..], x)
      case None => None
      case Some(i) =>
        assert xs[..i + 1] == [xs[0]] + xs[1..][..i];
        Some(i + 1)
  }

  // ---------------------------------------------------------------------------
  // Round trips between splitting and joining
  // ---------------------------------------------------------------------------

  /** Splitting on a character and joining with it gives back the string. */
  lemma {:induction false} JoinSplit(s: string, d: char)
    ensures Join(Split(s, d), [d]) == s
  {
    if s != [] {
      JoinSplit(s[1..], d);
      var rest := Split(s[1..], d);
      if s[0] == d {
        assert ([""] + rest)[1..] == rest;
      } else {
        var parts := [[s[0]] + rest[0]] + rest[1..];
        if |rest| > 1 {
          assert parts[1..] == rest[1..];
          assert Join(rest, [d]) == rest[0] + [d] + Join(rest[1..], [d]);
        }
      }
    }
  }

  /** Joining a joined tail as one part is the same as joining all the parts. */
  lemma {:induction false} JoinFlatten(a: seq<string>, b: seq<string>, sep: string)
    requires b != []
    ensures Join(a + [Join(b, sep)], sep) == Join(a + b, sep)
  {
    if a != [] {
      JoinFlatten(a[1..], b, sep);
      var j := Join(b, sep);
      assert (a + [j])[1..] == a[1..] + [j];
      assert (a + b)[1..] == a[1..] + b;
      assert Join(a + [j], sep) == a[0] + sep + Join(a[1..] + [j], sep);
      assert Join(a + b, sep) == a[0] + sep + Join(a[1..] + b, sep);
    } else {
      assert a + [Join(b, sep)] == [Join(b, sep)] && a + b == b;
    }
  }

  /** A leading whitespace character is skipped by `split()`. */
  lemma WordsSkipSpace(c: char, s: string)
    requires IsSpace(c)
    ensures Words([c] + s) == Words(s)
  {
    assert ([c] + s)[1..] == s;
  }

  /** A word followed by nothing or by whitespace is read whole by `WordLen`. */
  lemma {:induction false} WordLenOfWord(w: string, t: string)
    requires IsWord(w) && (t == [] || IsSpace(t[0]))
    ensures WordLen(w + t) == |w|
  {
    if |w| > 1 {
      assert (w + t)[1..] == w[1..] + t;
      WordLenOfWord(w[1..], t);
    } else {
      assert (w + t)[1..] == t;
    }
  }

  /** Tokens joined by single spaces split back into the same tokens. */
  lemma {:induction false} WordsJoin(ws: seq<string>)
    requires forall i :: 0 <= i < |ws| ==> IsWord(ws[i])
    ensures Words(Join(ws, " ")) == ws
  {
    if |ws| == 1 {
      var w := ws[0];
      WordLenOfWord(w, "");
      assert w + "" == w;
      assert w[|w|..] == "";
    } else if |ws| > 1 {
      var w, t := ws[0], " " + Join(ws[1..], " ");
      assert Join(ws, " ") == w + t;
      WordLenOfWord(w, t);
      assert (w + t)[..|w|] == w;
      assert (w + t)[|w|..] == t;
      WordsSkipSpace(' ', Join(ws[1..], " "));
      WordsJoin(ws[1..]);
      assert ws == [w] + ws[1..];
    }
  }

  /** Leading whitespace does not change the tokens. */
  lemma {:induction false} WordsTrimStart(s: string)
    ensures Words(TrimStart(s)) == Words(s)
  {
    if s != [] && IsSpace(s[0]) {
      WordsTrimStart(s[1..]);
    }
  }

  /** `WordLen` stops before the end, or at a whitespace-led suffix. */
  lemma {:induction false} WordLenAppend(s: string, t: string)
    requires WordLen(s) < |s| || t == [] || IsSpace(t[0])
    ensures WordLen(s + t) == WordLen(s)
  {
    if s == [] {
      assert s + t == t;
    } else if !IsSpace(s[0]) {
      assert (s + t)[1..] == s[1..] + t;
      WordLenAppend(s[1..], t);
    } else {
      assert (s + t)[0] == s[0];
    }
  }

  /** A trailing whitespace character does not change the tokens. */
  lemma {:induction false} WordsAppendSpace(s: string, c: char)
    requires IsSpace(c)
    ensures Words(s + [c]) == Words(s)
    decreases |s|
  {
    if s == [] {
      assert Words([c]) == Words([c][1..]);
    } else if IsSpace(s[0]) {
      assert (s + [c])[1..] == s[1..] + [c];
      WordsAppendSpace(s[1..], c);
    } else {
      var k := WordLen(s);
      WordLenAppend(s, [c]);
      assert (s + [c])[..k] == s[..k];
      assert (s + [c])[k..] == s[k..] + [c];
      WordsAppendSpace(s[k..], c);
    }
  }

  /** Trailing whitespace does not change the tokens. */
  lemma {:induction false} WordsTrimEnd(s: string)
    ensures Words(TrimEnd(s)) == Words(s)
    decreases |s|
  {
    if s != [] && IsSpace(s[|s| - 1]) {
      var init := s[..|s| - 1];
      WordsTrimEnd(init);
      assert s == init + [s[|s| - 1]];
      WordsAppendSpace(init, s[|s| - 1]);
    }
  }

  /** `s.strip().split() == s.split()`. */
  lemma WordsStrip(s: string)
    ensures Words(Strip(s)) == Words(s)
  {
    WordsTrimEnd(TrimStart(s));
    WordsTrimStart(s);
  }
}
