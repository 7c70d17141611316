/**
  The string operations of Rust's standard library that the decoder and the
  formatters rely on, each with the semantics `str` gives it: `lines`,
  `split_whitespace`, `split`, `trim`, `join`, and the ASCII-prefix test that
  `to_lowercase().starts_with(..)` performs.
 */
module Text {

  /** `char::is_whitespace`: the characters with the Unicode White_Space property. */
  predicate IsWhitespace(c: char) {
    var n := c as int;
    (9 <= n <= 13) || n == 32 || n == 0x85 || n == 0xA0 || n == 0x1680
    || (0x2000 <= n <= 0x200A) || n == 0x2028 || n == 0x2029 || n == 0x202F
    || n == 0x205F || n == 0x3000
  }

  predicate StartsWith(s: string, prefix: string) {
    |prefix| <= |s| && s[..|prefix|] == prefix
  }

  predicate EndsWith(s: string, suffix: string) {
    |suffix| <= |s| && s[|s| - |suffix|..] == suffix
  }

  /** Index of the first `c` in `s`, or `|s|` when `s` has none. */
  function IndexOf(s: string, c: char): (i: nat)
    ensures i <= |s|
    ensures i < |s| ==> s[i] == c
    ensures forall k :: 0 <= k < i ==> s[k] != c
  {
    if s == [] || s[0] == c then 0 else 1 + IndexOf(s[1..], c)
  }

  // ---------------------------------------------------------------- lines

  /** A line as `lines` yields it: the terminating "\n" is gone, and a "\r" right before it too. */
  function DropCR(line: string): string {
    if line != [] && line[|line| - 1] == '\r' then line[..|line| - 1] else line
  }

  /**
    `str::lines`: the text split at every "\n", a "\r" directly before a "\n"
    dropped with it; a final line terminator does not start another, empty, line,
    and the empty string has no lines at all.
   */
  function Lines(s: string): (ls: seq<string>)
    ensures ls == [] <==> s == []
    ensures forall k :: 0 <= k < |ls| ==> '\n' !in ls[k]
    decreases |s|
  {
    if s == [] then []
    else
      var i := IndexOf(s, '\n');
      if i == |s| then [s] else [DropCR(s[..i])] + Lines(s[i + 1..])
  }

  lemma LinesOfSingleLine(s: string)
    requires s != [] && '\n' !in s
    ensures Lines(s) == [s]
  {
    assert forall k | 0 <= k < |s| :: s[k] != '\n';
  }

  lemma LinesAfterFirstLine(a: string, rest: string)
    requires '\n' !in a
    ensures Lines(a + "\n" + rest) == [DropCR(a)] + Lines(rest)
  {
    var s := a + "\n" + rest;
    assert forall k | 0 <= k < |a| :: s[k] == a[k] && s[k] != '\n';
    assert s[|a|] == '\n';
    var i := IndexOf(s, '\n');
    assert i == |a|;
    assert s[..i] == a;
    assert s[i + 1..] == rest;
  }

  /** Lines each terminated by "\r\n", the way an HTTP head is written. */
  function CrlfText(ls: seq<string>): string {
    if ls == [] then "" else ls[0] + "\r\n" + CrlfText(ls[1..])
  }

  /** A line ended by "\r\n" is read back without its terminator. */
  lemma LinesAfterCrlfLine(first: string, tail: string)
    requires '\n' !in first
    ensures Lines(first + "\r\n" + tail) == [first] + Lines(tail)
  {
    var a := first + "\r";
    assert first + "\r\n" + tail == a + "\n" + tail;
    assert '\n' !in a;
    LinesAfterFirstLine(a, tail);
    assert a[..|first|] == first;
  }

  /** `lines` reads CRLF-terminated lines back, each without its terminator. */
  lemma {:induction false} LinesOfCrlfText(ls: seq<string>, rest: string)
    requires forall k :: 0 <= k < |ls| ==> '\n' !in ls[k]
    ensures Lines(CrlfText(ls) + rest) == ls + Lines(rest)
    decreases |ls|
  {
    if ls == [] {
      assert CrlfText(ls) + rest == rest;
    } else {
      var first, others := ls[0], ls[1..];
      assert forall k :: 0 <= k < |others| ==> others[k] == ls[k + 1];
      LinesOfCrlfText(others, rest);
      CrlfStep(first, others, rest);
      assert [first] + others == ls;
      SeqAssoc([first], others, Lines(rest));
    }
  }

  /** The first CRLF line comes back first, followed by the lines of everything after it. */
  lemma CrlfStep(first: string, others: seq<string>, rest: string)
    requires '\n' !in first
    ensures Lines(CrlfText([first] + others) + rest) == [first] + Lines(CrlfText(others) + rest)
  {
    var ls := [first] + others;
    assert ls[1..] == others;
    assert CrlfText(ls) == first + "\r\n" + CrlfText(others);
    ConcatAssoc(first + "\r\n", CrlfText(others), rest);
    LinesAfterCrlfLine(first, CrlfText(others) + rest);
  }

  lemma SeqAssoc(x: seq<string>, y: seq<string>, z: seq<string>)
    ensures x + (y + z) == x + y + z
  {
  }

  // ---------------------------------------------------------------- join

  /** `[String]::join(sep)`: the parts in order, `sep` between neighbours and nowhere else. */
  function Join(parts: seq<string>, sep: string): string {
    if |parts| == 0 then ""
    else if |parts| == 1 then parts[0]
    else parts[0] + sep + Join(parts[1..], sep)
  }

  /** A part that is not the last is followed by the separator and the join of the rest. */
  lemma JoinStep(parts: seq<string>, sep: string, k: nat)
    requires k + 1 < |parts|
    ensures Join(parts[k..], sep) == parts[k] + sep + Join(parts[k + 1..], sep)
  {
    assert parts[k..][1..] == parts[k + 1..];
  }

  /** Joining the lines of a text with "\n" gives the text back when it has no "\r" and no final "\n". */
  lemma {:induction false} JoinLines(s: string)
    requires '\r' !in s
    requires s == [] || s[|s| - 1] != '\n'
    ensures Join(Lines(s), "\n") == s
    decreases |s|
  {
    if s != [] {
      var i := IndexOf(s, '\n');
      if i == |s| {
        LinesOfSingleLine(s);
      } else {
        var rest := FirstLineSplit(s, i);
        JoinLines(rest);
        JoinCons(s[..i], Lines(rest), "\n");
      }
    }
  }

  /** Joining a first part to further parts puts the separator between them. */
  lemma JoinCons(first: string, others: seq<string>, sep: string)
    requires others != []
    ensures Join([first] + others, sep) == first + sep + Join(others, sep)
  {
    assert ([first] + others)[1..] == others;
  }

  /** A text with a "\n" before its last character, no "\r": its first line, then the lines of the rest. */
  lemma FirstLineSplit(s: string, i: nat) returns (rest: string)
    requires '\r' !in s && s != [] && s[|s| - 1] != '\n'
    requires i == IndexOf(s, '\n') && i < |s|
    ensures rest == s[i + 1..] && s == s[..i] + "\n" + rest
    ensures Lines(s) == [s[..i]] + Lines(rest)
    ensures rest != [] && '\r' !in rest && rest[|rest| - 1] != '\n'
  {
    rest := s[i + 1..];
    SplitAround(s, i);
    FirstLineClean(s, i);
    LinesAfterFirstLine(s[..i], rest);
    NotInSlice(s, '\r', i + 1, |s|);
    assert i != |s| - 1;
    assert rest[|rest| - 1] == s[|s| - 1];
  }

  /** A text is what comes before position i, the "\n" at i, and what comes after. */
  lemma SplitAround(s: string, i: nat)
    requires i < |s| && s[i] == '\n'
    ensures s == s[..i] + "\n" + s[i + 1..]
  {
  }

  /** The text before the first "\n" of a text without "\r" is a whole line, read back unchanged. */
  lemma FirstLineClean(s: string, i: nat)
    requires '\r' !in s && i == IndexOf(s, '\n') && i < |s|
    ensures '\n' !in s[..i] && DropCR(s[..i]) == s[..i]
  {
    NotInSlice(s, '\r', 0, i);
  }

  /** A character missing from a text is missing from every slice of it. */
  lemma NotInSlice(s: string, c: char, lo: nat, hi: nat)
    requires lo <= hi <= |s| && c !in s
    ensures c !in s[lo..hi]
  {
    forall k | lo <= k < hi ensures s[k] != c {
      assert s[k] in s;
    }
  }

  // ---------------------------------------------------------------- split

  /** `pat` occurs in `s` starting at index `k`. */
  predicate OccursAt(s: string, pat: string, k: nat) {
    k + |pat| <= |s| && s[k..k + |pat|] == pat
  }

  /** First index at which `pat` occurs in `s`, or `|s|` when it does not occur. */
  function Find(s: string, pat: string): (i: nat)
    requires pat != []
    ensures i <= |s|
    ensures i < |s| ==> OccursAt(s, pat, i)
    ensures forall k :: 0 <= k < i ==> !OccursAt(s, pat, k)
    decreases |s|
  {
    if |s| < |pat| then |s|
    else if s[..|pat|] == pat then 0
    else
      var j := Find(s[1..], pat);
      assert forall k :: 1 <= k <= |s| ==> (OccursAt(s, pat, k) <==> OccursAt(s[1..], pat, k - 1));
      1 + j
  }

  /** `str::split(pat)`: the pieces between non-overlapping occurrences of `pat`, found left to right. */
  function Split(s: string, pat: string): (parts: seq<string>)
    requires pat != []
    ensures |parts| >= 1
    decreases |s|
  {
    var i := Find(s, pat);
    if i == |s| then [s] else [s[..i]] + Split(s[i + |pat|..], pat)
  }

  /** A text without the separator character splits into itself alone. */
  lemma SplitWithout(s: string, c: char)
    requires c !in s
    ensures Split(s, [c]) == [s]
  {
    forall k | 0 <= k < |s| ensures !OccursAt(s, [c], k) {
      assert s[k] in s;
      OccursAtChar(s, c, k);
    }
  }

  /** A text whose only separator character is at `k` splits there into two pieces. */
  lemma SplitAtOnly(s: string, c: char, k: nat)
    requires k < |s| && s[k] == c
    requires forall j :: 0 <= j < |s| && j != k ==> s[j] != c
    ensures Split(s, [c]) == [s[..k], s[k + 1..]]
  {
    var i := Find(s, [c]);
    OccursAtChar(s, c, i);
    OccursAtChar(s, c, k);
    assert i == k;
    var rest := s[k + 1..];
    assert c !in rest by {
      forall j | 0 <= j < |rest| ensures rest[j] != c { assert rest[j] == s[k + 1 + j]; }
    }
    SplitWithout(rest, c);
  }

  /** A one-character pattern occurs exactly where that character is. */
  lemma OccursAtChar(s: string, c: char, j: nat)
    ensures OccursAt(s, [c], j) <==> j < |s| && s[j] == c
  {
    if j < |s| {
      assert s[j..j + 1] == [s[j]];
    }
  }

  /** A piece without the separator's first character is found whole: the first separator is the one after it. */
  lemma FindAfterPiece(piece: string, sep: string, rest: string)
    requires sep != [] && sep[0] !in piece
    ensures Find(piece + sep + rest, sep) == |piece|
    ensures Find(piece, sep) == |piece|
  {
    var s := piece + sep + rest;
    forall k | 0 <= k < |piece| ensures !OccursAt(s, sep, k) && !OccursAt(piece, sep, k) {
      assert piece[k] in piece;
      assert s[k] == piece[k];
      assert k + |sep| <= |s| ==> s[k..k + |sep|][0] == s[k];
      assert k + |sep| <= |piece| ==> piece[k..k + |sep|][0] == piece[k];
    }
    assert s[|piece|..|piece| + |sep|] == sep;
    assert OccursAt(s, sep, |piece|);
  }

  /** A piece found whole before the separator is the first piece of the split. */
  lemma SplitAfterPiece(piece: string, sep: string, rest: string)
    requires sep != [] && Find(piece + sep + rest, sep) == |piece|
    ensures Split(piece + sep + rest, sep) == [piece] + Split(rest, sep)
  {
    var s := piece + sep + rest;
    assert s[|piece| + |sep|..] == rest;
    assert s[..|piece|] == piece;
  }

  /**
    Splitting joined pieces at the separator gives the pieces back, in order,
    when there is at least one piece and none holds the separator's first character.
   */
  lemma {:induction false} SplitJoin(parts: seq<string>, sep: string)
    requires parts != [] && sep != []
    requires forall i :: 0 <= i < |parts| ==> sep[0] !in parts[i]
    ensures Split(Join(parts, sep), sep) == parts
    decreases |parts|
  {
    if |parts| == 1 {
      SplitSingle(parts[0], sep);
    } else {
      var tail := parts[1..];
      assert forall i :: 0 <= i < |tail| ==> tail[i] == parts[i + 1];
      SplitJoin(tail, sep);
      SplitJoinStep(parts, sep);
      assert [parts[0]] + tail == parts;
    }
  }

  /** A piece without the separator's first character splits into itself. */
  lemma SplitSingle(piece: string, sep: string)
    requires sep != [] && sep[0] !in piece
    ensures Split(piece, sep) == [piece]
  {
    FindAfterPiece(piece, sep, "");
  }

  /** The first of several joined pieces is split off first. */
  lemma SplitJoinStep(parts: seq<string>, sep: string)
    requires |parts| >= 2 && sep != [] && sep[0] !in parts[0]
    ensures Split(Join(parts, sep), sep) == [parts[0]] + Split(Join(parts[1..], sep), sep)
  {
    var rest := Join(parts[1..], sep);
    assert Join(parts, sep) == parts[0] + sep + rest;
    FindAfterPiece(parts[0], sep, rest);
    SplitAfterPiece(parts[0], sep, rest);
  }

  // ---------------------------------------------------------------- trim

  /** `str::trim_start`. */
  function TrimStart(s: string): (t: string)
    ensures |t| <= |s| && t == s[|s| - |t|..]
    ensures t == [] || !IsWhitespace(t[0])
    ensures forall k :: 0 <= k < |s| - |t| ==> IsWhitespace(s[k])
  {
    if s != [] && IsWhitespace(s[0]) then TrimStart(s[1..]) else s
  }

  /** `str::trim_end`. */
  function TrimEnd(s: string): (t: string)
    ensures |t| <= |s| && t == s[..|t|]
    ensures t == [] || !IsWhitespace(t[|t| - 1])
    ensures forall k :: |t| <= k < |s| ==> IsWhitespace(s[k])
  {
    if s != [] && IsWhitespace(s[|s| - 1]) then TrimEnd(s[..|s| - 1]) else s
  }

  /** `str::trim`: the text without its leading and trailing whitespace. */
  function Trim(s: string): (t: string)
    ensures forall c :: c in t ==> c in s
    ensures t == [] || (!IsWhitespace(t[0]) && !IsWhitespace(t[|t| - 1]))
  {
    var u := TrimStart(s);
    var t := TrimEnd(u);
    forall c | c in t ensures c in s {
      var k :| 0 <= k < |t| && t[k] == c;
      assert u[k] == s[|s| - |u| + k];
    }
    t
  }

  /** A text that starts and ends with non-whitespace, after any amount of leading whitespace, trims to itself. */
  lemma TrimAfterSpaces(pad: string, s: string)
    requires forall k :: 0 <= k < |pad| ==> IsWhitespace(pad[k])
    requires s == [] || (!IsWhitespace(s[0]) && !IsWhitespace(s[|s| - 1]))
    ensures Trim(pad + s) == s
    decreases |pad|
  {
    if pad == [] {
      assert pad + s == s;
      if s != [] {
        assert TrimStart(s) == s;
        assert TrimEnd(s) == s;
      }
    } else {
      assert (pad + s)[1..] == pad[1..] + s;
      assert TrimStart(pad + s) == TrimStart(pad[1..] + s);
      TrimAfterSpaces(pad[1..], s);
    }
  }

  // ---------------------------------------------------------------- split_whitespace

  /** Length of the leading run of non-whitespace characters. */
  function TokenEnd(s: string): (k: nat)
    ensures k <= |s|
    ensures forall j :: 0 <= j < k ==> !IsWhitespace(s[j])
    ensures k < |s| ==> IsWhitespace(s[k])
  {
    if s == [] || IsWhitespace(s[0]) then 0 else 1 + TokenEnd(s[1..])
  }

  /** `str::split_whitespace`: the maximal non-empty runs of non-whitespace characters, in order. */
  function SplitWhitespace(s: string): (tokens: seq<string>)
    ensures AllWords(tokens)
    decreases |s|
  {
    var t := TrimStart(s);
    if t == [] then []
    else
      var k := TokenEnd(t);
      assert k > 0 by { assert !IsWhitespace(t[0]); }
      var word := t[..k];
      var rest := SplitWhitespace(t[k..]);
      WordsCons(word, rest);
      [word] + rest
  }

  predicate AllWords(tokens: seq<string>) {
    forall i :: 0 <= i < |tokens| ==> IsWord(tokens[i])
  }

  lemma WordsCons(word: string, rest: seq<string>)
    requires word != [] && forall j :: 0 <= j < |word| ==> !IsWhitespace(word[j])
    requires AllWords(rest)
    ensures AllWords([word] + rest)
  {
    var tokens := [word] + rest;
    forall i | 0 <= i < |tokens| ensures IsWord(tokens[i]) {
      if i > 0 {
        assert tokens[i] == rest[i - 1];
      }
    }
  }

  /** A word's token ends where the word does, when whitespace or nothing follows. */
  lemma {:induction false} TokenEndOfWord(word: string, tail: string)
    requires IsWord(word)
    requires tail == [] || IsWhitespace(tail[0])
    ensures TokenEnd(word + tail) == |word|
    decreases |word|
  {
    var s := word + tail;
    assert s[0] == word[0];
    if |word| > 1 {
      assert s[1..] == word[1..] + tail;
      TokenEndOfWord(word[1..], tail);
    } else {
      assert s[1..] == tail;
    }
  }

  /** A token at the start of `s`, taken off: the token, then the tokens of the rest. */
  lemma SplitWhitespaceFirst(s: string, k: nat)
    requires 0 < k <= |s| && !IsWhitespace(s[0]) && TokenEnd(s) == k
    ensures SplitWhitespace(s) == [s[..k]] + SplitWhitespace(s[k..])
  {
    assert TrimStart(s) == s;
  }

  /** A word followed by whitespace: the word is the first token, the rest split as before. */
  lemma SplitWhitespaceWord(word: string, sp: char, rest: string)
    requires IsWord(word)
    requires IsWhitespace(sp)
    ensures SplitWhitespace(word + [sp] + rest) == [word] + SplitWhitespace([sp] + rest)
  {
    var s := word + ([sp] + rest);
    assert word + [sp] + rest == s;
    TokenEndOfWord(word, [sp] + rest);
    assert s[0] == word[0];
    SplitWhitespaceFirst(s, |word|);
    assert s[..|word|] == word;
    assert s[|word|..] == [sp] + rest;
  }

  /** A final word with nothing after it is one token. */
  lemma SplitWhitespaceLastWord(word: string)
    requires IsWord(word)
    ensures SplitWhitespace(word) == [word]
  {
    TokenEndOfWord(word, []);
    assert word + [] == word;
    SplitWhitespaceFirst(word, |word|);
    assert word[..|word|] == word;
    assert word[|word|..] == [];
  }

  /** Leading whitespace produces no token. */
  lemma SplitWhitespaceSkip(sp: char, rest: string)
    requires IsWhitespace(sp)
    ensures SplitWhitespace([sp] + rest) == SplitWhitespace(rest)
  {
    assert ([sp] + rest)[1..] == rest;
    assert TrimStart([sp] + rest) == TrimStart(rest);
  }

  predicate IsWord(w: string) {
    w != [] && forall k :: 0 <= k < |w| ==> !IsWhitespace(w[k])
  }

  /** Helpers that keep sequence reasoning out of the larger proofs. */
  lemma ConcatAssoc(x: string, y: string, z: string)
    ensures x + (y + z) == x + y + z
  {
  }

  lemma ThreeItems(a: string, b: string, c: string)
    ensures [a] + ([b] + [c]) == [a, b, c]
  {
  }

  /** Three words separated by single spaces split into exactly those three words. */
  lemma SplitThreeWords(a: string, b: string, c: string)
    requires IsWord(a) && IsWord(b) && IsWord(c)
    ensures SplitWhitespace(a + " " + b + " " + c) == [a, b, c]
  {
    var sc := [' '] + c;
    var bc := b + sc;
    var sbc := [' '] + bc;
    var abc := a + sbc;
    ConcatAssoc(a + " " + b, " ", c);
    ConcatAssoc(a + " ", b, sc);
    ConcatAssoc(a, " ", bc);
    assert IsWhitespace(' ');
    SplitWhitespaceLastWord(c);
    SplitWhitespaceSkip(' ', c);
    var tc := SplitWhitespace(sc);
    assert tc == [c];
    ConcatAssoc(b, [' '], c);
    SplitWhitespaceWord(b, ' ', c);
    var tbc := SplitWhitespace(bc);
    assert tbc == [b] + tc;
    SplitWhitespaceSkip(' ', bc);
    ConcatAssoc(a, [' '], bc);
    SplitWhitespaceWord(a, ' ', bc);
    assert SplitWhitespace(abc) == [a] + tbc;
    ThreeItems(a, b, c);
    assert a + " " + b + " " + c == abc;
  }

  // ---------------------------------------------------------------- case-insensitive prefix

  /**
    The lower-case form of `c` wherever that form is one character that could
    equal an ASCII character: ASCII capitals and KELVIN SIGN (U+212A, whose lower
    case is 'k'). No other character lowercases to an ASCII character, so on
    every other character this returns `c` itself, which never compares equal to
    an ASCII character that `c` is not.
   */
  function LowerChar(c: char): (l: char)
    ensures 'a' <= l <= 'z' <==> ('a' <= c <= 'z' || 'A' <= c <= 'Z' || c as int == 0x212A)
  {
    if 'A' <= c <= 'Z' then (c as int + 32) as char
    else if c as int == 0x212A then 'k'
    else c
  }

  /**
    `s.to_lowercase().starts_with(prefix)` for a `prefix` of lower-case ASCII
    letters, '-' and ':' that ends in ':'. Lower-casing keeps every character in
    place except U+0130, which becomes "i" followed by U+0307; U+0307 is none of
    those characters and cannot stand in the last position, so the test is a
    character-by-character comparison of the folded characters.
   */
  predicate LowercaseStartsWith(s: string, prefix: string) {
    |prefix| <= |s| && forall i :: 0 <= i < |prefix| ==> LowerChar(s[i]) == prefix[i]
  }
}
