/**
 * The JavaScript string operations the core relies on: substring search,
 * `String.prototype.split` with a non-empty separator, `Array.prototype.join`
 * and whitespace trimming.
 */
module Strings {
  import opened Wrappers

  /** `sep` occurs in `s` starting at index `i`. */
  predicate OccursAt(s: string, sep: string, i: nat) {
    i + |sep| <= |s| && s[i..i + |sep|] == sep
  }

  /** `sep` occurs somewhere in `s` (JavaScript `s.includes(sep)`). */
  predicate Contains(s: string, sep: string) {
    exists i: nat :: i <= |s| && OccursAt(s, sep, i)
  }

  /** The first index at or after `from` where `sep` occurs (`s.indexOf(sep, from)`). */
  function FirstOccurrence(s: string, sep: string, from: nat): (r: Option<nat>)
    requires from <= |s|
    decreases |s| - from
    ensures r.Some? ==> from <= r.value && OccursAt(s, sep, r.value)
    ensures r.Some? ==> forall j: nat :: from <= j < r.value ==> !OccursAt(s, sep, j)
    ensures r.None? ==> forall j: nat :: from <= j ==> !OccursAt(s, sep, j)
  {
    if from + |sep| > |s| then None
    else if s[from..from + |sep|] == sep then Some(from)
    else if from == |s| then None
    else FirstOccurrence(s, sep, from + 1)
  }

  /** `s` is `t` with some text before it and some after it. */
  predicate Surrounds(s: string, pre: string, t: string, post: string) {
    s == pre + t + post
  }

  /** `s.includes(t)` exactly when `s` is `t` with text around it. */
  lemma ContainsIffSurrounds(s: string, t: string)
    ensures Contains(s, t) <==> exists pre, post :: Surrounds(s, pre, t, post)
  {
    if Contains(s, t) {
      var i: nat :| i <= |s| && OccursAt(s, t, i);
      assert s == s[..i] + t + s[i + |t|..];
      assert Surrounds(s, s[..i], t, s[i + |t|..]);
    }
    if exists pre, post :: Surrounds(s, pre, t, post) {
      var pre, post :| Surrounds(s, pre, t, post);
      assert s[|pre|..|pre| + |t|] == t;
      assert OccursAt(s, t, |pre|);
    }
  }

  /** A single-character separator occurs exactly where that character is. */
  lemma OccursAtChar(s: string, c: char, i: nat)
    ensures OccursAt(s, [c], i) <==> i < |s| && s[i] == c
  {
    if i < |s| {
      assert s[i..i + 1] == [s[i]];
    }
  }

  lemma ContainsChar(s: string, c: char)
    ensures Contains(s, [c]) <==> c in s
  {
    if c in s {
      var i :| 0 <= i < |s| && s[i] == c;
      OccursAtChar(s, c, i);
    }
    if Contains(s, [c]) {
      var i: nat :| OccursAt(s, [c], i);
      OccursAtChar(s, c, i);
    }
  }

  /** An occurrence inside a prefix is an occurrence in the whole string. */
  lemma OccursInPrefix(s: string, sep: string, n: nat, j: nat)
    requires n <= |s|
    ensures OccursAt(s[..n], sep, j) ==> OccursAt(s, sep, j)
  {
    if OccursAt(s[..n], sep, j) {
      assert s[..n][j..j + |sep|] == s[j..j + |sep|];
    }
  }

  /** `parts.join(sep)`. */
  function Join(parts: seq<string>, sep: string): string
  {
    if |parts| == 0 then ""
    else if |parts| == 1 then parts[0]
    else parts[0] + sep + Join(parts[1..], sep)
  }

  /**
   * `s.split(sep)` for a non-empty separator: the pieces between successive
   * non-overlapping occurrences, scanning left to right. Splitting then joining
   * gives back `s`, and no piece contains the separator, which together
   * determine the pieces.
   */
  function Split(s: string, sep: string): (parts: seq<string>)
    requires |sep| > 0
    decreases |s|
    ensures |parts| >= 1
    ensures Join(parts, sep) == s
    ensures forall k :: 0 <= k < |parts| ==> !Contains(parts[k], sep)
    ensures |parts| == 1 <==> !Contains(s, sep)
  {
    match FirstOccurrence(s, sep, 0)
    case None => [s]
    case Some(i) =>
      var rest := Split(s[i + |sep|..], sep);
      SplitStep(s, sep, i, rest);
      [s[..i]] + rest
  }

  /** One step of `Split`: the piece before the first occurrence, then the rest. */
  lemma SplitStep(s: string, sep: string, i: nat, rest: seq<string>)
    requires |sep| > 0 && i + |sep| <= |s|
    requires FirstOccurrence(s, sep, 0) == Some(i)
    requires |rest| >= 1 && Join(rest, sep) == s[i + |sep|..]
    requires forall k :: 0 <= k < |rest| ==> !Contains(rest[k], sep)
    ensures Join([s[..i]] + rest, sep) == s
    ensures forall k :: 0 <= k < |[s[..i]] + rest| ==> !Contains(([s[..i]] + rest)[k], sep)
    ensures Contains(s, sep)
  {
    assert OccursAt(s, sep, i);
    HeadBeforeFirst(s, sep, i);
    ConsPiecesFree(s[..i], rest, sep);
    JoinAroundOccurrence(s, sep, i, rest);
  }

  /** The text before the first occurrence of `sep` holds no occurrence of it. */
  lemma HeadBeforeFirst(s: string, sep: string, i: nat)
    requires |sep| > 0 && i + |sep| <= |s|
    requires FirstOccurrence(s, sep, 0) == Some(i)
    ensures !Contains(s[..i], sep)
  {
    forall j: nat | j <= i && OccursAt(s[..i], sep, j)
      ensures false
    {
      OccursInPrefix(s, sep, i, j);
    }
  }

  /** A separator-free piece in front of separator-free pieces keeps them all separator-free. */
  lemma ConsPiecesFree(head: string, rest: seq<string>, sep: string)
    requires !Contains(head, sep)
    requires forall k :: 0 <= k < |rest| ==> !Contains(rest[k], sep)
    ensures forall k :: 0 <= k < |[head] + rest| ==> !Contains(([head] + rest)[k], sep)
  {
    forall k | 0 <= k < |[head] + rest|
      ensures !Contains(([head] + rest)[k], sep)
    {
      if k > 0 {
        assert ([head] + rest)[k] == rest[k - 1];
      }
    }
  }

  /** Joining the text before an occurrence with the pieces of the text after it gives back `s`. */
  lemma JoinAroundOccurrence(s: string, sep: string, i: nat, rest: seq<string>)
    requires i + |sep| <= |s| && OccursAt(s, sep, i)
    requires |rest| >= 1 && Join(rest, sep) == s[i + |sep|..]
    ensures Join([s[..i]] + rest, sep) == s
  {
    AroundOccurrence(s, sep, i);
    JoinCons(s[..i], rest, sep);
  }

  /** An occurrence of `sep` cuts `s` into the text before it, `sep`, and the text after it. */
  lemma AroundOccurrence(s: string, sep: string, i: nat)
    requires OccursAt(s, sep, i)
    ensures s == s[..i] + sep + s[i + |sep|..]
  {
    assert s[i..i + |sep|] == sep;
  }

  /** A join of two or more pieces: the first, the separator, the second, then the rest. */
  lemma JoinFromSecond(parts: seq<string>, sep: string)
    requires |parts| >= 2
    ensures var post := if |parts| == 2 then "" else sep + Join(parts[2..], sep);
            Join(parts, sep) == parts[0] + sep + parts[1] + post
  {
    assert parts[1..][1..] == parts[2..];
  }

  /**
   * `s` is `mid` framed by separators: `pre`, which has no separator, then
   * `sep`, `mid`, and a tail that is empty or starts with another `sep`.
   */
  predicate Framed(s: string, pre: string, sep: string, mid: string, post: string)
  {
    && s == pre + sep + mid + post
    && !Contains(pre, sep)
    && (post == "" || (|post| >= |sep| && post[..|sep|] == sep))
  }

  /**
   * Where the second piece of a split sits: after the first occurrence of the
   * separator, running up to the next occurrence or the end.
   */
  lemma SecondPieceShape(s: string, sep: string)
    requires |sep| > 0 && |Split(s, sep)| >= 2
    ensures exists pre, post :: Framed(s, pre, sep, Split(s, sep)[1], post)
  {
    var parts := Split(s, sep);
    JoinFromSecond(parts, sep);
    var post := if |parts| == 2 then "" else sep + Join(parts[2..], sep);
    assert s == parts[0] + sep + parts[1] + post;
    assert post == "" || post[..|sep|] == sep;
    assert Framed(s, parts[0], sep, parts[1], post);
  }

  /** A string that starts with the separator and has no other occurrence splits into "" and the rest. */
  lemma SplitLeadingSeparator(sep: string, t: string)
    requires |sep| > 0 && !Contains(t, sep)
    ensures Split(sep + t, sep) == ["", t]
  {
    var v := sep + t;
    assert OccursAt(v, sep, 0);
    assert FirstOccurrence(v, sep, 0) == Some(0);
    assert v[|sep|..] == t && v[..0] == "";
    var rest := Split(t, sep);
    assert |rest| == 1;
  }

  /**
   * Splitting on a single character undoes joining with it, provided no piece
   * contains that character.
   */
  lemma {:induction false} SplitJoinChar(parts: seq<string>, c: char)
    requires |parts| >= 1
    requires forall k :: 0 <= k < |parts| ==> c !in parts[k]
    ensures Split(Join(parts, [c]), [c]) == parts
  {
    var s := Join(parts, [c]);
    if |parts| == 1 {
      ContainsChar(parts[0], c);
      var r := Split(s, [c]);
      assert |r| == 1;
    } else {
      var head := parts[0];
      var rest := Join(parts[1..], [c]);
      assert s == head + [c] + rest;
      OccursAtChar(s, c, |head|);
      forall j: nat | j < |head|
        ensures !OccursAt(s, [c], j)
      {
        OccursAtChar(s, c, j);
        assert s[j] == head[j];
      }
      assert FirstOccurrence(s, [c], 0) == Some(|head|);
      assert s[..|head|] == head;
      assert s[|head| + 1..] == rest;
      SplitJoinChar(parts[1..], c);
      assert Split(s, [c]) == [head] + Split(rest, [c]);
    }
  }

  /**
   * `s.split(c)` for a one-character separator, scanning character by
   * character: the same pieces `Split` gives, with contracts stated on
   * characters rather than substrings.
   */
  function SplitOnChar(s: string, c: char): (parts: seq<string>)
    ensures |parts| >= 1
    ensures Join(parts, [c]) == s
    ensures forall k :: 0 <= k < |parts| ==> c !in parts[k]
    ensures |parts| == 1 <==> c !in s
  {
    if |s| == 0 then [""]
    else
      var rest := SplitOnChar(s[1..], c);
      if s[0] == c then
        JoinCons("", rest, [c]);
        assert s == [c] + s[1..];
        [""] + rest
      else
        JoinExtendHead(s[0], rest, [c]);
        assert s == [s[0]] + s[1..];
        [[s[0]] + rest[0]] + rest[1..]
  }

  /** The character splitter gives exactly the pieces of the general `Split`. */
  lemma SplitOnCharAgrees(s: string, c: char)
    ensures Split(s, [c]) == SplitOnChar(s, c)
  {
    SplitJoinChar(SplitOnChar(s, c), c);
  }

  /** Splitting on a character undoes joining with it, for pieces free of that character. */
  lemma SplitOnCharOfJoin(parts: seq<string>, c: char)
    requires |parts| >= 1
    requires forall k :: 0 <= k < |parts| ==> c !in parts[k]
    ensures SplitOnChar(Join(parts, [c]), c) == parts
  {
    SplitJoinChar(parts, c);
    SplitOnCharAgrees(Join(parts, [c]), c);
  }

  /** Joining a piece in front of at least one more adds it and a separator. */
  lemma JoinCons(x: string, rest: seq<string>, sep: string)
    requires |rest| >= 1
    ensures Join([x] + rest, sep) == x + sep + Join(rest, sep)
  {
    assert ([x] + rest)[1..] == rest;
  }

  /** Prefixing a character to the first piece prefixes it to the join. */
  lemma JoinExtendHead(ch: char, parts: seq<string>, sep: string)
    requires |parts| >= 1
    ensures Join([[ch] + parts[0]] + parts[1..], sep) == [ch] + Join(parts, sep)
  {
    if |parts| > 1 {
      JoinCons([ch] + parts[0], parts[1..], sep);
      assert [parts[0]] + parts[1..] == parts;
      JoinCons(parts[0], parts[1..], sep);
    } else {
      assert [[ch] + parts[0]] + parts[1..] == [[ch] + parts[0]];
    }
  }

  /** Join over a sequence that ends in `last`. */
  lemma {:induction false} JoinSnoc(parts: seq<string>, last: string, sep: string)
    requires |parts| >= 1
    ensures Join(parts + [last], sep) == Join(parts, sep) + sep + last
  {
    if |parts| == 1 {
      assert (parts + [last])[1..] == [last];
    } else {
      assert (parts + [last])[1..] == parts[1..] + [last];
      JoinSnoc(parts[1..], last, sep);
    }
  }

  /** Joining pieces without a separator yields no character the pieces lack. */
  lemma {:induction false} JoinEmptyOmits(parts: seq<string>, c: char)
    requires forall k :: 0 <= k < |parts| ==> c !in parts[k]
    ensures c !in Join(parts, "")
  {
    if |parts| > 1 {
      JoinEmptyOmits(parts[1..], c);
    }
  }

  /** The length of a separator-free join is the sum of the piece lengths. */
  function TotalLength(parts: seq<string>): nat
  {
    if |parts| == 0 then 0 else |parts[0]| + TotalLength(parts[1..])
  }

  lemma {:induction false} JoinLength(parts: seq<string>, sep: string)
    ensures |Join(parts, sep)| == TotalLength(parts) + (if |parts| == 0 then 0 else (|parts| - 1) * |sep|)
  {
    if |parts| > 1 {
      JoinLength(parts[1..], sep);
    }
  }

  lemma {:induction false} TotalLengthOfPrefix(parts: seq<string>, n: nat)
    requires n <= |parts|
    ensures TotalLength(parts[..n]) <= TotalLength(parts)
  {
    if n > 0 {
      assert parts[..n][1..] == parts[1..][..n - 1];
      TotalLengthOfPrefix(parts[1..], n - 1);
    }
  }

  /** The characters JavaScript's trim removes that the model knows about. */
  predicate IsSpace(c: char) {
    c == ' ' || c == '\t' || c == '\n' || c == '\r' || c == '\U{000B}' || c == '\U{000C}'
  }

  function TrimStart(s: string): (r: string)
    decreases |s|
    ensures |r| <= |s| && r == s[|s| - |r|..]
    ensures forall i :: 0 <= i < |s| - |r| ==> IsSpace(s[i])
    ensures |r| > 0 ==> !IsSpace(r[0])
  {
    if |s| > 0 && IsSpace(s[0]) then
      var r := TrimStart(s[1..]);
      assert s[1..][|s| - 1 - |r|..] == s[|s| - |r|..];
      assert forall i :: 1 <= i < |s| - |r| ==> s[i] == s[1..][i - 1];
      r
    else s
  }

  function TrimEnd(s: string): (r: string)
    decreases |s|
    ensures |r| <= |s| && r == s[..|r|]
    ensures forall i :: |r| <= i < |s| ==> IsSpace(s[i])
    ensures |r| > 0 ==> !IsSpace(r[|r| - 1])
  {
    if |s| > 0 && IsSpace(s[|s| - 1]) then
      var r := TrimEnd(s[..|s| - 1]);
      assert s[..|s| - 1][..|r|] == s[..|r|];
      assert forall i :: |r| <= i < |s| - 1 ==> s[i] == s[..|s| - 1][i];
      r
    else s
  }

  /** `r` is `s[a..b]`, and everything of `s` before `a` and from `b` on is whitespace. */
  predicate TrimmedAt(s: string, r: string, a: nat, b: nat)
  {
    && a <= b <= |s| && r == s[a..b]
    && (forall i :: 0 <= i < a ==> IsSpace(s[i]))
    && (forall i :: b <= i < |s| ==> IsSpace(s[i]))
  }

  /**
   * Removes leading and trailing whitespace: the result is the part of `s`
   * between a whitespace-only prefix and a whitespace-only suffix, and it
   * neither starts nor ends with whitespace.
   */
  function Trim(s: string): (r: string)
    ensures exists a: nat, b: nat :: TrimmedAt(s, r, a, b)
    ensures |r| > 0 ==> !IsSpace(r[0]) && !IsSpace(r[|r| - 1])
  {
    var t := TrimStart(s);
    var r := TrimEnd(t);
    TrimParts(s, t, r);
    assert TrimmedAt(s, r, |s| - |t|, |s| - |t| + |r|);
    r
  }

  /**
   * A whitespace-free cut from the front followed by one from the back:
   * `t` is `s` less a whitespace prefix and `r` is `t` less a whitespace
   * suffix, so `r` is a slice of `s` between the two.
   */
  lemma TrimParts(s: string, t: string, r: string)
    requires |t| <= |s| && t == s[|s| - |t|..]
    requires forall i :: 0 <= i < |s| - |t| ==> IsSpace(s[i])
    requires |t| > 0 ==> !IsSpace(t[0])
    requires |r| <= |t| && r == t[..|r|]
    requires forall i :: |r| <= i < |t| ==> IsSpace(t[i])
    ensures TrimmedAt(s, r, |s| - |t|, |s| - |t| + |r|)
    ensures |r| > 0 ==> !IsSpace(r[0])
  {
    var a := |s| - |t|;
    var b := a + |r|;
    assert r == s[a..b];
    assert forall i :: b <= i < |s| ==> s[i] == t[i - a];
    assert |r| > 0 ==> r[0] == t[0];
  }

  /** The variation selectors U+FE0E and U+FE0F, which validator.js's `isLength` does not count. */
  predicate IsVariationSelector(c: char) {
    c == '\U{FE0E}' || c == '\U{FE0F}'
  }

  /**
   * The length validator.js's `isLength` measures: one per character (a
   * surrogate pair counts once), variation selectors left out.
   */
  function IsLengthCount(s: string): (n: nat)
    ensures n <= |s|
  {
    if |s| == 0 then 0
    else (if IsVariationSelector(s[0]) then 0 else 1) + IsLengthCount(s[1..])
  }

  /** The `isLength` count is the length of `s` less the number of variation selectors in it. */
  lemma {:induction false} IsLengthCountSelectors(s: string)
    ensures IsLengthCount(s) == |s| - multiset(s)['\U{FE0E}'] - multiset(s)['\U{FE0F}']
  {
    if |s| > 0 {
      IsLengthCountSelectors(s[1..]);
      assert s == [s[0]] + s[1..];
      assert multiset(s) == multiset{s[0]} + multiset(s[1..]);
    }
  }

  /** `isLength` counts every character exactly when `s` holds no variation selector. */
  lemma IsLengthCountFull(s: string)
    ensures IsLengthCount(s) == |s| <==> forall i :: 0 <= i < |s| ==> !IsVariationSelector(s[i])
  {
    IsLengthCountSelectors(s);
    if forall i :: 0 <= i < |s| ==> !IsVariationSelector(s[i]) {
      assert '\U{FE0E}' !in s;
      assert '\U{FE0F}' !in s;
    } else {
      var i :| 0 <= i < |s| && IsVariationSelector(s[i]);
      assert s[i] in multiset(s);
    }
  }

  /** A string that neither starts nor ends with whitespace is its own trim. */
  lemma TrimUnchanged(s: string)
    requires |s| > 0 ==> !IsSpace(s[0]) && !IsSpace(s[|s| - 1])
    ensures Trim(s) == s
  {
  }

  /** Trimming twice is trimming once. */
  lemma TrimIdempotent(s: string)
    ensures Trim(Trim(s)) == Trim(s)
  {
    TrimUnchanged(Trim(s));
  }
}
