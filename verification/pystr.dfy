/** The Python `str` operations the scraper and the bot rely on, stated on
    `seq<char>`: `lower`, `replace`, slicing, `startswith`, `find`, `split`,
    `join` and `str(int)`. Each behaves as CPython's does on the inputs the
    source gives it; `lower` covers the scripts titles are written in. */
module PyStr {

  /** `c.lower()` for Basic Latin, Latin-1 and the basic Cyrillic block
      (U+0400 to U+042F); every other character is left as it is. */
  function LowerChar(c: char): char {
    if 'A' <= c <= 'Z' || '\U{410}' <= c <= '\U{42F}' || ('\U{C0}' <= c <= '\U{DE}' && c != '\U{D7}') then
      (c as int + 32) as char
    else if '\U{400}' <= c <= '\U{40F}' then
      (c as int + 80) as char
    else
      c
  }

  /** `s.lower()` */
  function Lower(s: string): string {
    seq(|s|, i requires 0 <= i < |s| => LowerChar(s[i]))
  }

  /** Lowering commutes with taking a prefix (the bot lowers a whole message
      and then slices it). */
  lemma LowerPrefix(s: string, n: nat)
    requires n <= |s|
    ensures Lower(s)[..n] == Lower(s[..n])
  {
  }

  /** `s.replace(target, replacement)` for one-character arguments. */
  function ReplaceChar(s: string, target: char, replacement: char): string {
    seq(|s|, i requires 0 <= i < |s| => if s[i] == target then replacement else s[i])
  }

  /** `s[:n]` for n >= 0: Python clamps the bound to the length. */
  function SliceTo(s: string, n: nat): string {
    if n <= |s| then s[..n] else s
  }

  /** `s[n:]` for n >= 0. */
  function SliceFrom(s: string, n: nat): string {
    if n <= |s| then s[n..] else []
  }

  /** `s.startswith(prefix)` */
  predicate StartsWith(s: string, prefix: string) {
    |prefix| <= |s| && s[..|prefix|] == prefix
  }

  /** `s.endswith(suffix)` */
  predicate EndsWith(s: string, suffix: string) {
    |suffix| <= |s| && s[|s| - |suffix|..] == suffix
  }

  /** `needle` occurs in `hay` starting at index `i`. */
  predicate OccursAt(hay: string, needle: string, i: int) {
    0 <= i && i + |needle| <= |hay| && hay[i..i + |needle|] == needle
  }

  /** The first occurrence of `needle` in `hay` at or after `start`, or -1. */
  function IndexFrom(hay: string, needle: string, start: nat): (r: int)
    ensures r == -1 || (start <= r && OccursAt(hay, needle, r))
    ensures r == -1 ==> forall j :: start <= j ==> !OccursAt(hay, needle, j)
    ensures forall j :: start <= j < r ==> !OccursAt(hay, needle, j)
    decreases |hay| - start
  {
    if |hay| < start + |needle| then -1
    else if hay[start..start + |needle|] == needle then start
    else IndexFrom(hay, needle, start + 1)
  }

  /** `hay.find(needle)`: the index of the first occurrence, or -1. */
  function IndexOf(hay: string, needle: string): (r: int)
    ensures r == -1 || OccursAt(hay, needle, r)
    ensures r == -1 ==> forall j :: !OccursAt(hay, needle, j)
    ensures forall j :: 0 <= j < r ==> !OccursAt(hay, needle, j)
  {
    IndexFrom(hay, needle, 0)
  }

  /** `needle in hay` */
  predicate Contains(hay: string, needle: string) {
    IndexOf(hay, needle) != -1
  }

  /** The first occurrence pins down what `find` returns. */
  lemma FindIs(hay: string, needle: string, k: int)
    requires OccursAt(hay, needle, k)
    requires forall j :: 0 <= j < k ==> !OccursAt(hay, needle, j)
    ensures IndexOf(hay, needle) == k
  {
  }

  /** An occurrence that ends inside a prefix is an occurrence in that prefix. */
  lemma OccursInPrefix(u: string, v: string, needle: string, j: int)
    requires |u| <= |v| && u == v[..|u|]
    requires OccursAt(v, needle, j) && j + |needle| <= |u|
    ensures OccursAt(u, needle, j)
  {
    assert u[j..j + |needle|] == v[j..j + |needle|];
  }

  /** `s.split(sep)` for a non-empty separator: cut at every leftmost
      non-overlapping occurrence; empty pieces are kept. */
  function Split(s: string, sep: string): (parts: seq<string>)
    requires |sep| > 0
    ensures |parts| > 0
    decreases |s|
  {
    var i := IndexOf(s, sep);
    if i == -1 then [s] else [s[..i]] + Split(s[i + |sep|..], sep)
  }

  /** `sep.join(parts)` */
  function Join(parts: seq<string>, sep: string): string {
    if |parts| == 0 then ""
    else if |parts| == 1 then parts[0]
    else parts[0] + sep + Join(parts[1..], sep)
  }

  /** A piece can be joined and split back when the separator does not occur
      in the piece followed by all but the last character of the separator
      (so no occurrence can start inside the piece). */
  predicate SplitSafe(piece: string, sep: string)
    requires |sep| > 0
  {
    !Contains(piece + sep[..|sep| - 1], sep)
  }

  lemma SafeHasNoSeparator(piece: string, sep: string)
    requires |sep| > 0 && SplitSafe(piece, sep)
    ensures IndexOf(piece, sep) == -1
  {
    var k := IndexOf(piece, sep);
    if k != -1 {
      var u := piece + sep[..|sep| - 1];
      assert u[..|piece|] == piece;
      assert u[k..k + |sep|] == piece[k..k + |sep|];
      assert OccursAt(u, sep, k);
      assert false;
    }
  }

  /** After a safe piece, the first separator is the one that follows it. */
  lemma FindAfterSafePiece(p: string, sep: string, rest: string)
    requires |sep| > 0 && SplitSafe(p, sep)
    ensures IndexOf(p + sep + rest, sep) == |p|
  {
    var s := p + sep + rest;
    assert s[|p|..|p| + |sep|] == sep;
    var u := p + sep[..|sep| - 1];
    assert s[..|u|] == u;
    forall j | 0 <= j < |p|
      ensures !OccursAt(s, sep, j)
    {
      if OccursAt(s, sep, j) {
        OccursInPrefix(u, s, sep, j);
      }
    }
    FindIs(s, sep, |p|);
  }

  /** Splitting what `join` produced gives back the pieces. */
  lemma {:induction false} SplitJoin(parts: seq<string>, sep: string)
    requires |parts| > 0 && |sep| > 0
    requires forall k :: 0 <= k < |parts| ==> SplitSafe(parts[k], sep)
    ensures Split(Join(parts, sep), sep) == parts
    decreases |parts|
  {
    var p := parts[0];
    if |parts| == 1 {
      SafeHasNoSeparator(p, sep);
    } else {
      var rest := Join(parts[1..], sep);
      var s := p + sep + rest;
      assert Join(parts, sep) == s;
      FindAfterSafePiece(p, sep, rest);
      assert s[|p| + |sep|..] == rest;
      assert s[..|p|] == p;
      SplitJoin(parts[1..], sep);
      assert Split(s, sep) == [p] + parts[1..];
    }
  }

  /** A piece that does not contain ", " is safe for `', '.join` and
      `.split(', ')`. */
  lemma CommaSpaceSafe(piece: string)
    requires !Contains(piece, ", ")
    ensures SplitSafe(piece, ", ")
  {
    var u := piece + ",";
    assert ", "[..1] == ",";
    forall j | 0 <= j && j + 2 <= |u|
      ensures !OccursAt(u, ", ", j)
    {
      if j + 2 <= |piece| {
        assert !OccursAt(piece, ", ", j);
        assert u[j..j + 2] == piece[j..j + 2];
      } else {
        assert u[j..j + 2][1] == ',';
      }
    }
  }

  /** A piece without the character `c` is safe for a one-character separator. */
  lemma CharSafe(piece: string, c: char)
    requires forall i :: 0 <= i < |piece| ==> piece[i] != c
    ensures SplitSafe(piece, [c])
  {
    assert piece + [c][..0] == piece;
    forall j | 0 <= j < |piece|
      ensures !OccursAt(piece, [c], j)
    {
      assert piece[j..j + 1] == [piece[j]];
    }
  }

  /** The decimal value of a run of digits. */
  function DigitsValue(s: string): int {
    if |s| == 0 then 0 else DigitsValue(s[..|s| - 1]) * 10 + (s[|s| - 1] as int - '0' as int)
  }

  /** `str(n)` for n >= 0. */
  function NatToString(n: nat): (s: string)
    ensures |s| > 0
    ensures forall i :: 0 <= i < |s| ==> '0' <= s[i] <= '9'
    ensures DigitsValue(s) == n
  {
    if n < 10 then [('0' as int + n) as char]
    else
      var s := NatToString(n / 10) + [('0' as int + n % 10) as char];
      assert s[..|s| - 1] == NatToString(n / 10);
      s
  }

  /** `str(n)` */
  function IntToString(n: int): string {
    if n < 0 then "-" + NatToString(-n) else NatToString(n)
  }

  /** `int(s)` on the text that `str` produces. */
  function IntValue(s: string): int {
    if |s| > 0 && s[0] == '-' then -DigitsValue(s[1..]) else DigitsValue(s)
  }

  /** `str(n)` holds only a sign and digits, never a `|`, and `int` reads it
      back: different ids give different texts. */
  lemma IntToStringRoundTrip(n: int)
    ensures forall i :: 0 <= i < |IntToString(n)| ==> IntToString(n)[i] == '-' || '0' <= IntToString(n)[i] <= '9'
    ensures IntValue(IntToString(n)) == n
  {
    if n < 0 {
      assert ("-" + NatToString(-n))[1..] == NatToString(-n);
    }
  }
}
