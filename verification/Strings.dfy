/** The string operations the services use, as Python defines them. */
module Strings {
  import opened Wrappers

  /** Index of the first `c`, or the length of `s`. */
  function IndexOf(s: string, c: char): (i: nat)
    ensures i <= |s|
    ensures forall k :: 0 <= k < i ==> s[k] != c
    ensures i < |s| ==> s[i] == c
  {
    if s == [] || s[0] == c then 0 else 1 + IndexOf(s[1..], c)
  }

  /** `s.split(c)`. */
  function Split(s: string, c: char): (parts: seq<string>)
    ensures |parts| > 0
    decreases |s|
  {
    var i := IndexOf(s, c);
    if i == |s| then [s] else [s[..i]] + Split(s[i + 1..], c)
  }

  /** `c.join(parts)`. */
  function Join(parts: seq<string>, c: char): string
    requires |parts| > 0
  {
    if |parts| == 1 then parts[0] else parts[0] + [c] + Join(parts[1..], c)
  }

  lemma IndexOfFirst(s: string, c: char, rest: string)
    requires c !in s
    ensures IndexOf(s + [c] + rest, c) == |s|
    ensures IndexOf(s, c) == |s|
  {
    var t := s + [c] + rest;
    assert t[|s|] == c && forall k :: 0 <= k < |s| ==> t[k] in s;
  }

  lemma SplitFirst(head: string, c: char, rest: string)
    requires c !in head
    ensures Split(head + [c] + rest, c) == [head] + Split(rest, c) && Split(head, c) == [head]
  {
    var s := head + [c] + rest;
    IndexOfFirst(head, c, rest);
    assert s[..|head|] == head && s[|head| + 1..] == rest;
  }

  /** Splitting undoes joining when no part holds the separator. */
  lemma {:induction false} SplitJoin(parts: seq<string>, c: char)
    requires |parts| > 0 && forall p :: p in parts ==> c !in p
    ensures Split(Join(parts, c), c) == parts
  {
    if |parts| == 1 {
      SplitFirst(parts[0], c, "");
    } else {
      SplitFirst(parts[0], c, Join(parts[1..], c));
      SplitJoin(parts[1..], c);
    }
  }

  /** Joining undoes splitting, always. */
  lemma {:induction false} JoinSplit(s: string, c: char)
    ensures Join(Split(s, c), c) == s
    decreases |s|
  {
    var i := IndexOf(s, c);
    if i < |s| {
      var rest := s[i + 1..];
      assert Split(s, c) == [s[..i]] + Split(rest, c);
      JoinSplit(rest, c);
      JoinFirst(s[..i], Split(rest, c), c);
      CutAt(s, i);
    }
  }

  lemma CutAt(s: string, i: nat)
    requires i < |s|
    ensures s == s[..i] + [s[i]] + s[i + 1..]
  {
  }

  lemma JoinFirst(first: string, rest: seq<string>, c: char)
    requires |rest| > 0
    ensures Join([first] + rest, c) == first + [c] + Join(rest, c)
  {
    assert ([first] + rest)[1..] == rest;
  }

  predicate At(s: string, p: string, i: nat) {
    i + |p| <= |s| && s[i..i + |p|] == p
  }

  /** Where `p` first occurs in `s`, looking from index `i` on. */
  function Find(s: string, p: string, i: nat := 0): (r: Option<nat>)
    ensures r.Some? ==> i <= r.value && At(s, p, r.value)
    ensures forall k :: i <= k && (r.Some? ==> k < r.value) ==> !At(s, p, k)
    decreases |s| - i
  {
    if At(s, p, i) then Some(i) else if i + |p| > |s| || i >= |s| then None else Find(s, p, i + 1)
  }

  /** `s.partition(p)`: the text before the first `p`, whether there is one, and the text after it. */
  function Partition(s: string, p: string): (string, bool, string) {
    match Find(s, p)
    case None => (s, false, "")
    case Some(i) => (s[..i], true, s[i + |p|..])
  }

  lemma AtMeans(s: string, p: string, i: nat)
    ensures At(s, p, i) ==> i + |p| <= |s| && forall j :: 0 <= j < |p| ==> s[i + j] == p[j]
  {
    if At(s, p, i) {
      forall j | 0 <= j < |p| ensures s[i + j] == p[j] {
        assert s[i..i + |p|][j] == s[i + j];
      }
    }
  }

  /** Text that is free of the first character of `p` up to a `p` is parted there. */
  lemma PartsAtFirst(k: string, p: string, v: string)
    requires p != "" && p[0] !in k
    ensures Partition(k + p + v, p) == (k, true, v)
  {
    var s := k + p + v;
    assert s[|k|..|k| + |p|] == p;
    assert At(s, p, |k|);
    forall i | 0 <= i < |k| ensures !At(s, p, i) {
      assert s[i] == k[i] && k[i] in k;
      AtMeans(s, p, i);
    }
    assert Find(s, p) == Some(|k|);
    assert s[..|k|] == k && s[|k| + |p|..] == v;
  }

  /** Text without the first character of `p` does not hold `p`. */
  lemma PartitionMisses(s: string, p: string)
    requires p != "" && p[0] !in s
    ensures Partition(s, p) == (s, false, "")
  {
    forall i: nat ensures !At(s, p, i) {
      AtMeans(s, p, i);
    }
  }

  /** `s.rpartition(c)`: around the last `c`; with none, everything is on the right. */
  function RPartition(s: string, c: char): (string, bool, string) {
    if s == [] then ("", false, "")
    else if s[|s| - 1] == c then (s[..|s| - 1], true, "")
    else
      var (head, found, tail) := RPartition(s[..|s| - 1], c);
      (head, found, tail + [s[|s| - 1]])
  }

  lemma {:induction false} RPartitionLast(head: string, c: char, tail: string)
    requires c !in tail
    ensures RPartition(head + [c] + tail, c) == (head, true, tail)
    decreases |tail|
  {
    var s := head + [c] + tail;
    if tail == [] {
      assert s == head + [c];
    } else {
      var init := tail[..|tail| - 1];
      RPartitionLast(head, c, init);
      assert s[..|s| - 1] == head + [c] + init;
      assert init + [tail[|tail| - 1]] == tail;
    }
  }

  predicate StartsWith(s: string, p: string) {
    |p| <= |s| && s[..|p|] == p
  }

  predicate EndsWith(s: string, p: string) {
    |p| <= |s| && s[|s| - |p|..] == p
  }

  predicate IsSpace(c: char) {
    || '\t' <= c <= '\r' || '\U{1c}' <= c <= ' ' || c == '\U{85}' || c == '\U{a0}' || c == '\U{1680}'
    || '\U{2000}' <= c <= '\U{200a}' || c == '\U{2028}' || c == '\U{2029}' || c == '\U{202f}' || c == '\U{205f}'
    || c == '\U{3000}'
  }

  /** `s.strip()`. */
  function Strip(s: string): string
    decreases |s|
  {
    if s == [] then s
    else if IsSpace(s[0]) then Strip(s[1..])
    else if IsSpace(s[|s| - 1]) then Strip(s[..|s| - 1])
    else s
  }

  /** The characters that count as white space. */
  const SPACES := "\t\n\U{0b}\U{0c}\r\U{1c}\U{1d}\U{1e}\U{1f} \U{85}\U{a0}\U{1680}"
                + "\U{2000}\U{2001}\U{2002}\U{2003}\U{2004}\U{2005}\U{2006}\U{2007}\U{2008}\U{2009}\U{200a}"
                + "\U{2028}\U{2029}\U{202f}\U{205f}\U{3000}"

  lemma SpacesAre(c: char)
    ensures c in SPACES <==> IsSpace(c)
  {
    var ascii := "\t\n\U{0b}\U{0c}\r\U{1c}\U{1d}\U{1e}\U{1f} \U{85}\U{a0}\U{1680}";
    var quads := "\U{2000}\U{2001}\U{2002}\U{2003}\U{2004}\U{2005}\U{2006}\U{2007}\U{2008}\U{2009}\U{200a}";
    var others := "\U{2028}\U{2029}\U{202f}\U{205f}\U{3000}";
    assert SPACES == ascii + quads + others;
    AsciiSpaces(c, ascii);
    QuadSpaces(c, quads);
    OtherSpaces(c, others);
  }

  lemma AsciiSpaces(c: char, s: string)
    requires s == "\t\n\U{0b}\U{0c}\r\U{1c}\U{1d}\U{1e}\U{1f} \U{85}\U{a0}\U{1680}"
    ensures c in s <==> '\t' <= c <= '\r' || '\U{1c}' <= c <= ' ' || c in {'\U{85}', '\U{a0}', '\U{1680}'}
  {
    assert s[0] == '\t' && s[1] == '\n' && s[2] == '\U{0b}' && s[3] == '\U{0c}' && s[4] == '\r';
    assert s[5] == '\U{1c}' && s[6] == '\U{1d}' && s[7] == '\U{1e}' && s[8] == '\U{1f}' && s[9] == ' ';
    assert s[10] == '\U{85}' && s[11] == '\U{a0}' && s[12] == '\U{1680}';
  }

  lemma QuadSpaces(c: char, s: string)
    requires s == "\U{2000}\U{2001}\U{2002}\U{2003}\U{2004}\U{2005}\U{2006}\U{2007}\U{2008}\U{2009}\U{200a}"
    ensures c in s <==> '\U{2000}' <= c <= '\U{200a}'
  {
    assert s[0] == '\U{2000}' && s[1] == '\U{2001}' && s[2] == '\U{2002}' && s[3] == '\U{2003}';
    assert s[4] == '\U{2004}' && s[5] == '\U{2005}' && s[6] == '\U{2006}' && s[7] == '\U{2007}';
    assert s[8] == '\U{2008}' && s[9] == '\U{2009}' && s[10] == '\U{200a}';
  }

  lemma OtherSpaces(c: char, s: string)
    requires s == "\U{2028}\U{2029}\U{202f}\U{205f}\U{3000}"
    ensures c in s <==> c in {'\U{2028}', '\U{2029}', '\U{202f}', '\U{205f}', '\U{3000}'}
  {
    assert s[0] == '\U{2028}' && s[1] == '\U{2029}' && s[2] == '\U{202f}' && s[3] == '\U{205f}' && s[4] == '\U{3000}';
  }

  ghost predicate AllSpaces(s: string) {
    forall c :: c in s ==> c in SPACES
  }

  /** Stripping takes away exactly the white space around a text. */
  lemma {:induction false} StripAround(before: string, s: string, after: string)
    requires AllSpaces(before) && AllSpaces(after)
    requires s != "" ==> s[0] !in SPACES && s[|s| - 1] !in SPACES
    ensures Strip(before + s + after) == s
    decreases |before| + |after|
  {
    var t := before + s + after;
    if before != [] {
      SpacesAre(before[0]);
      assert t[0] == before[0] && t[1..] == before[1..] + s + after;
      StripAround(before[1..], s, after);
    } else if after != [] {
      var last := after[|after| - 1];
      SpacesAre(last);
      assert t[|t| - 1] == last && t[..|t| - 1] == before + s + after[..|after| - 1];
      StripAround(before, s, after[..|after| - 1]);
      StripOneRight(t);
    } else {
      assert t == s;
      if s != "" {
        SpacesAre(s[0]);
        SpacesAre(s[|s| - 1]);
      }
    }
  }

  lemma {:induction false} StripLeavesNoSpace(s: string)
    ensures Strip(s) != "" ==> !IsSpace(Strip(s)[0]) && !IsSpace(Strip(s)[|Strip(s)| - 1])
    decreases |s|
  {
    if s != "" && IsSpace(s[0]) {
      StripLeavesNoSpace(s[1..]);
    } else if s != "" && IsSpace(s[|s| - 1]) {
      StripLeavesNoSpace(s[..|s| - 1]);
    }
  }

  lemma {:induction false} StripOneRight(t: string)
    requires t != "" && IsSpace(t[|t| - 1])
    ensures Strip(t) == Strip(t[..|t| - 1])
    decreases |t|
  {
    if |t| > 1 && IsSpace(t[0]) {
      assert t[1..][..|t| - 2] == t[..|t| - 1][1..];
      StripOneRight(t[1..]);
    }
  }

  lemma StripKeepsCharacters(s: string)
    ensures forall c :: c in Strip(s) ==> c in s
  {
  }

  lemma StripPlain(s: string)
    requires forall c :: c in s ==> !IsSpace(c)
    ensures Strip(s) == s
  {
  }

  function LowerChar(c: char): char {
    if 'A' <= c <= 'Z' then (c as int - 'A' as int + 'a' as int) as char else c
  }

  /** `s.lower()` on the letters A to Z; no other character lowers to a letter of the words it is compared with. */
  function Lower(s: string): (r: string)
    ensures |r| == |s|
  {
    seq(|s|, i requires 0 <= i < |s| => LowerChar(s[i]))
  }

  /** A text lowers to a word of lower-case letters exactly when it is that word in whatever case. */
  lemma LowerMeans(s: string, word: string)
    requires forall i :: 0 <= i < |word| ==> 'a' <= word[i] <= 'z'
    ensures Lower(s) == word <==>
              |s| == |word| && forall i :: 0 <= i < |s| ==> s[i] == word[i] || s[i] as int == word[i] as int - 32
  {
    if Lower(s) == word {
      assert forall i :: 0 <= i < |s| ==> Lower(s)[i] == LowerChar(s[i]);
    }
  }
}
