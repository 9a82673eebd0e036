/** The string operations of the language runtime that the sources rely on. */
module Text {
  import opened Sequences

  /** White space and line terminators, as `trim` removes them. */
  predicate IsSpace(c: char) {
    var n := c as int;
    0x09 <= n <= 0x0D || n == 0x20 || n == 0xA0 || n == 0x1680 || 0x2000 <= n <= 0x200A
    || n == 0x2028 || n == 0x2029 || n == 0x202F || n == 0x205F || n == 0x3000 || n == 0xFEFF
  }

  function TrimStart(s: string): string {
    if s != "" && IsSpace(s[0]) then TrimStart(s[1..]) else s
  }

  function TrimEnd(s: string): string {
    if s != "" && IsSpace(s[|s| - 1]) then TrimEnd(s[..|s| - 1]) else s
  }

  function Trim(s: string): string {
    TrimEnd(TrimStart(s))
  }

  predicate StartsWith(s: string, prefix: string) {
    |prefix| <= |s| && s[..|prefix|] == prefix
  }

  /** Trimming the end keeps a prefix that does not end in white space. */
  lemma {:induction false} TrimEndKeepsPrefix(s: string, prefix: string)
    requires StartsWith(s, prefix) && prefix != "" && !IsSpace(prefix[|prefix| - 1])
    ensures StartsWith(TrimEnd(s), prefix)
  {
    if !IsSpace(s[|s| - 1]) {
    } else {
      assert s[|prefix| - 1] == prefix[|prefix| - 1];
      assert s[..|s| - 1][..|prefix|] == prefix;
      TrimEndKeepsPrefix(s[..|s| - 1], prefix);
    }
  }
}
