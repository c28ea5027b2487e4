// The parts of Go's strings, bufio and unicode packages the parsers rely on.
// A string is a sequence of Unicode characters.
module Text {
  import opened Options

  /** unicode.IsSpace: the characters with the White_Space property. */
  predicate IsSpace(c: char) {
    || '\t' <= c <= '\r'
    || c == ' '
    || c == '\U{0085}' || c == '\U{00A0}' || c == '\U{1680}'
    || '\U{2000}' <= c <= '\U{200A}'
    || c == '\U{2028}' || c == '\U{2029}' || c == '\U{202F}' || c == '\U{205F}' || c == '\U{3000}'
  }

  /** strings.HasPrefix. */
  predicate HasPrefix(s: string, prefix: string) {
    prefix <= s
  }

  function Lower(c: char): char {
    if 'A' <= c <= 'Z' then c - 'A' + 'a' else c
  }

  /** strings.ToLower, of ASCII letters. */
  function ToLower(s: string): (r: string)
    ensures |r| == |s|
  {
    seq(|s|, i requires 0 <= i < |s| => Lower(s[i]))
  }

  predicate SameLetter(a: char, b: char) {
    || a == b
    || ('A' <= a <= 'Z' && b as int == a as int + 32)
    || ('A' <= b <= 'Z' && a as int == b as int + 32)
  }

  /** Equal but for the case of ASCII letters. */
  predicate SameButCase(a: string, b: string) {
    |a| == |b| && forall i :: 0 <= i < |a| ==> SameLetter(a[i], b[i])
  }

  lemma LowerIff(a: char, b: char)
    ensures Lower(a) == Lower(b) <==> SameLetter(a, b)
  {
  }

  /** Lower-casing loses the case of letters and nothing else. */
  lemma ToLowerIff(a: string, b: string)
    ensures ToLower(a) == ToLower(b) <==> SameButCase(a, b)
  {
    var s, t := ToLower(a), ToLower(b);
    if s == t {
      forall i | 0 <= i < |a| ensures SameLetter(a[i], b[i]) {
        assert s[i] == Lower(a[i]) && t[i] == Lower(b[i]);
        LowerIff(a[i], b[i]);
      }
    }
    if SameButCase(a, b) {
      forall i | 0 <= i < |a| ensures s[i] == t[i] {
        LowerIff(a[i], b[i]);
      }
      assert s == t;
    }
  }

  /** What has no capital letters is its own lower-case form. */
  lemma ToLowerKeeps(a: string)
    requires forall i :: 0 <= i < |a| ==> !('A' <= a[i] <= 'Z')
    ensures ToLower(a) == a
  {
  }

  /** The first position of c at or after i, or -1. */
  function IndexFrom(s: string, c: char, i: nat): (r: int)
    requires i <= |s|
    ensures r == -1 || i <= r < |s|
    decreases |s| - i
  {
    if i == |s| then -1 else if s[i] == c then i else IndexFrom(s, c, i + 1)
  }

  /** strings.IndexByte: the first position of c, or -1. */
  function IndexOf(s: string, c: char): (r: int)
    ensures -1 <= r < |s|
  {
    IndexFrom(s, c, 0)
  }

  /** r is the first position of c in s, or -1 when there is none. */
  predicate FirstAt(s: string, c: char, r: int) {
    if r == -1 then c !in s
    else 0 <= r < |s| && s[r] == c && forall k :: 0 <= k < r ==> s[k] != c
  }

  lemma {:induction false} IndexFromFirst(s: string, c: char, i: nat)
    requires i <= |s| && forall k :: 0 <= k < i ==> s[k] != c
    ensures FirstAt(s, c, IndexFrom(s, c, i))
    decreases |s| - i
  {
    if i < |s| && s[i] != c {
      IndexFromFirst(s, c, i + 1);
    }
  }

  lemma IndexOfFirst(s: string, c: char)
    ensures FirstAt(s, c, IndexOf(s, c))
  {
    IndexFromFirst(s, c, 0);
  }

  lemma IndexOfIs(s: string, c: char, r: int)
    requires FirstAt(s, c, r)
    ensures IndexOf(s, c) == r
  {
    IndexOfFirst(s, c);
  }

  /** The first position of c does not depend on what follows it. */
  lemma IndexOfHead(head: string, c: char, tail: string)
    requires c !in head
    ensures IndexOf(head + [c] + tail, c) == |head|
  {
    var s := head + [c] + tail;
    assert forall k :: 0 <= k < |head| ==> s[k] == head[k] && head[k] in head;
    IndexOfIs(s, c, |head|);
  }

  lemma IndexOfAbsent(s: string, c: char)
    requires c !in s
    ensures IndexOf(s, c) == -1
  {
    IndexOfIs(s, c, -1);
  }

  // ----- splitting on a separator character --------------------------------------------------

  /** strings.Split with a one-character separator. */
  function Split(s: string, c: char): (parts: seq<string>)
    ensures parts != []
    decreases |s|
  {
    var i := IndexOf(s, c);
    if i == -1 then [s] else [s[..i]] + Split(s[i + 1..], c)
  }

  /** strings.Join with a one-character separator. */
  function Join(parts: seq<string>, c: char): string {
    if parts == [] then ""
    else if |parts| == 1 then parts[0]
    else parts[0] + [c] + Join(parts[1..], c)
  }

  predicate Free(parts: seq<string>, c: char) {
    forall i :: 0 <= i < |parts| ==> c !in parts[i]
  }

  /** Splitting undoes joining, for parts without the separator. */
  lemma {:induction false} SplitJoin(parts: seq<string>, c: char)
    requires parts != [] && Free(parts, c)
    ensures Split(Join(parts, c), c) == parts
  {
    if |parts| == 1 {
      IndexOfAbsent(parts[0], c);
    } else {
      var tail := Join(parts[1..], c);
      var s := parts[0] + [c] + tail;
      IndexOfHead(parts[0], c, tail);
      assert s[..|parts[0]|] == parts[0];
      assert s[|parts[0]| + 1..] == tail;
      SplitJoin(parts[1..], c);
    }
  }

  lemma SplitParts(s: string, c: char)
    ensures var i := IndexOf(s, c);
      if i == -1 then Split(s, c) == [s]
      else Split(s, c)[0] == s[..i] && Split(s, c)[1..] == Split(s[i + 1..], c)
  {
  }

  lemma JoinMore(parts: seq<string>, c: char)
    requires |parts| > 1
    ensures Join(parts, c) == parts[0] + [c] + Join(parts[1..], c)
  {
  }

  /** Joining undoes splitting, and no part holds the separator. */
  lemma {:induction false} JoinSplit(s: string, c: char)
    ensures Join(Split(s, c), c) == s
    ensures Free(Split(s, c), c)
    decreases |s|
  {
    var i := IndexOf(s, c);
    IndexOfFirst(s, c);
    SplitParts(s, c);
    if i != -1 {
      JoinSplit(s[i + 1..], c);
      JoinMore(Split(s, c), c);
      assert s == s[..i] + [c] + s[i + 1..];
    }
  }

  // ----- splitting on white space ------------------------------------------------------------

  /** The first position of white space at or after i, or the length. */
  function WordEnd(s: string, i: nat): (n: nat)
    requires i <= |s|
    ensures i <= n <= |s|
    decreases |s| - i
  {
    if i == |s| || IsSpace(s[i]) then i else WordEnd(s, i + 1)
  }

  lemma {:induction false} WordEndIs(s: string, i: nat, n: nat)
    requires i <= n <= |s|
    requires forall k :: i <= k < n ==> !IsSpace(s[k])
    requires n < |s| ==> IsSpace(s[n])
    ensures WordEnd(s, i) == n
    decreases n - i
  {
    if i < n {
      WordEndIs(s, i + 1, n);
    }
  }

  /** strings.Fields. */
  function Fields(s: string): seq<string>
    decreases |s|
  {
    if s == "" then []
    else if IsSpace(s[0]) then Fields(s[1..])
    else
      var n := WordEnd(s, 1);
      [s[..n]] + Fields(s[n..])
  }

  /** A non-empty string without white space: what Fields returns. */
  predicate IsWord(w: string) {
    w != "" && forall i :: 0 <= i < |w| ==> !IsSpace(w[i])
  }

  lemma FieldsSkip(sp: char, rest: string)
    requires IsSpace(sp)
    ensures Fields([sp] + rest) == Fields(rest)
  {
    assert ([sp] + rest)[1..] == rest;
  }

  /** A word followed by white space is the first field. */
  lemma FieldsCons(w: string, sp: char, rest: string)
    requires IsWord(w) && IsSpace(sp)
    ensures Fields(w + [sp] + rest) == [w] + Fields(rest)
  {
    var s := w + [sp] + rest;
    assert s[0] == w[0] && s[|w|] == sp;
    assert forall k :: 0 <= k < |w| ==> s[k] == w[k];
    WordEndIs(s, 1, |w|);
    assert s[..|w|] == w;
    assert s[|w|..] == [sp] + rest;
    FieldsSkip(sp, rest);
  }

  lemma FieldsSingle(w: string)
    requires IsWord(w)
    ensures Fields(w) == [w]
  {
    WordEndIs(w, 1, |w|);
    assert w[..|w|] == w && w[|w|..] == "";
  }

  predicate AllWords(ws: seq<string>) {
    forall i :: 0 <= i < |ws| ==> IsWord(ws[i])
  }

  /** Fields undoes joining words with spaces. */
  lemma {:induction false} FieldsJoin(ws: seq<string>)
    requires AllWords(ws)
    ensures Fields(Join(ws, ' ')) == ws
  {
    if |ws| == 1 {
      FieldsSingle(ws[0]);
    } else if |ws| > 1 {
      FieldsJoin(ws[1..]);
      FieldsCons(ws[0], ' ', Join(ws[1..], ' '));
    }
  }

  /** No character other than those of the parts and the separator. */
  lemma {:induction false} JoinFree(parts: seq<string>, c: char, x: char)
    requires Free(parts, x) && x != c
    ensures x !in Join(parts, c)
  {
    if |parts| > 1 {
      JoinFree(parts[1..], c, x);
    }
  }

  function TrimLeft(s: string): string {
    if s != "" && IsSpace(s[0]) then TrimLeft(s[1..]) else s
  }

  function TrimRight(s: string): string {
    if s != "" && IsSpace(s[|s| - 1]) then TrimRight(s[..|s| - 1]) else s
  }

  /** strings.TrimSpace. */
  function TrimSpace(s: string): string {
    TrimRight(TrimLeft(s))
  }

  lemma {:induction false} WordEndStops(s: string, i: nat)
    requires i <= |s|
    ensures var n := WordEnd(s, i);
      (forall k :: i <= k < n ==> !IsSpace(s[k])) && (n < |s| ==> IsSpace(s[n]))
    decreases |s| - i
  {
    if i < |s| && !IsSpace(s[i]) {
      WordEndStops(s, i + 1);
    }
  }

  /** White space at the end does not change the fields. */
  lemma {:induction false} FieldsTrailing(t: string, sp: char)
    requires IsSpace(sp)
    ensures Fields(t + [sp]) == Fields(t)
    decreases |t|
  {
    var s := t + [sp];
    if t == "" {
      assert s[1..] == "";
    } else if IsSpace(t[0]) {
      FieldsTrailing(t[1..], sp);
      assert s[1..] == t[1..] + [sp];
    } else {
      var n := WordEnd(t, 1);
      WordEndStops(t, 1);
      assert forall k :: 1 <= k < n ==> s[k] == t[k];
      WordEndIs(s, 1, n);
      FieldsTrailing(t[n..], sp);
      assert s[..n] == t[..n];
      assert s[n..] == t[n..] + [sp];
    }
  }

  lemma {:induction false} FieldsTrimLeft(s: string)
    ensures Fields(TrimLeft(s)) == Fields(s)
  {
    if s != "" && IsSpace(s[0]) {
      FieldsTrimLeft(s[1..]);
    }
  }

  lemma {:induction false} FieldsTrimRight(s: string)
    ensures Fields(TrimRight(s)) == Fields(s)
  {
    if s != "" && IsSpace(s[|s| - 1]) {
      FieldsTrimRight(s[..|s| - 1]);
      FieldsTrailing(s[..|s| - 1], s[|s| - 1]);
      assert s == s[..|s| - 1] + [s[|s| - 1]];
    }
  }

  /** Trimming does not change the fields. */
  lemma FieldsTrim(s: string)
    ensures Fields(TrimSpace(s)) == Fields(s)
  {
    FieldsTrimLeft(s);
    FieldsTrimRight(TrimLeft(s));
  }

  // ----- reading lines -----------------------------------------------------------------------

  function CharBytes(c: char): nat {
    if c < '\U{0080}' then 1 else if c < '\U{0800}' then 2 else if c < '\U{10000}' then 3 else 4
  }

  /** Number of bytes of the UTF-8 encoding of the first n characters. */
  function BytesUpTo(s: string, n: nat): nat
    requires n <= |s|
  {
    if n == 0 then 0 else BytesUpTo(s, n - 1) + CharBytes(s[n - 1])
  }

  function ByteLength(s: string): nat {
    BytesUpTo(s, |s|)
  }

  lemma {:induction false} BytesBound(s: string, n: nat)
    requires n <= |s|
    ensures BytesUpTo(s, n) <= 4 * n
  {
    if n > 0 { BytesBound(s, n - 1); }
  }

  lemma ByteLengthBound(s: string)
    ensures ByteLength(s) <= 4 * |s|
  {
    BytesBound(s, |s|);
  }

  /** bufio.MaxScanTokenSize: a scanner gives up on a longer line, without reporting it. */
  const MAX_SCAN_TOKEN_SIZE: nat := 65536

  /** The raw text of the next line, without its line feed. */
  function RawLine(s: string): string {
    var i := IndexOf(s, '\n');
    if i == -1 then s else s[..i]
  }

  /** What follows the next line and its line feed. */
  function AfterLine(s: string): (rest: string)
    ensures s != "" ==> |rest| < |s|
  {
    var i := IndexOf(s, '\n');
    if i == -1 then "" else s[i + 1..]
  }

  function DropCarriageReturn(line: string): string {
    if line != "" && line[|line| - 1] == '\r' then line[..|line| - 1] else line
  }

  /** The next token of bufio.Scanner with its default split function. */
  function ScanLine(s: string): Option<string> {
    if s == "" || ByteLength(RawLine(s)) >= MAX_SCAN_TOKEN_SIZE then None
    else Some(DropCarriageReturn(RawLine(s)))
  }

  /** A short line and its line feed are read as one token. */
  lemma ScanLineCons(line: string, rest: string)
    requires '\n' !in line && 4 * |line| < MAX_SCAN_TOKEN_SIZE
    requires line == "" || line[|line| - 1] != '\r'
    ensures ScanLine(line + ['\n'] + rest) == Some(line)
    ensures AfterLine(line + ['\n'] + rest) == rest
  {
    var s := line + ['\n'] + rest;
    IndexOfHead(line, '\n', rest);
    assert s[..|line|] == line;
    assert s[|line| + 1..] == rest;
    ByteLengthBound(line);
  }

  /** A carriage return before the line feed does not belong to the line. */
  lemma ScanLineCrLf(line: string, rest: string)
    requires '\n' !in line && 4 * |line| + 4 < MAX_SCAN_TOKEN_SIZE
    ensures ScanLine(line + "\r\n" + rest) == Some(line)
    ensures AfterLine(line + "\r\n" + rest) == rest
  {
    var raw := line + ['\r'];
    var s := raw + ['\n'] + rest;
    assert s == line + "\r\n" + rest;
    IndexOfHead(raw, '\n', rest);
    assert s[..|raw|] == raw && s[|raw| + 1..] == rest;
    assert raw[..|raw| - 1] == line;
    ByteLengthBound(raw);
  }

  /** UTF-8: one byte for ASCII, and up to four. */
  lemma CharBytesAre(c: char)
    ensures CharBytes(c) == 1 <==> c as int < 128
    ensures CharBytes(c) == 2 <==> 128 <= c as int < 2048
    ensures CharBytes(c) == 3 <==> 2048 <= c as int < 65536
    ensures CharBytes(c) <= 4
  {
  }

  /** A scanner stops at the end and at a line of 65536 bytes, and nowhere else. */
  lemma ScanLineIff(s: string)
    ensures ScanLine(s).None? <==> s == "" || ByteLength(RawLine(s)) >= 65536
  {
  }

  /** The code points of white space. */
  lemma SpaceCodes(c: char)
    ensures var n := c as int;
      IsSpace(c) <==>
        || 9 <= n <= 13 || n == 32 || n == 0x85 || n == 0xA0 || n == 0x1680 || 0x2000 <= n <= 0x200A
        || n == 0x2028 || n == 0x2029 || n == 0x202F || n == 0x205F || n == 0x3000
  {
  }
}
