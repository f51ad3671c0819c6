/** Trimming white space, as Go's strings.TrimSpace. */
module Trimming {

  /** Unicode white space. */
  predicate IsSpace(c: char) {
    var n := c as int;
    9 <= n <= 13 || n == 32 || n == 0x85 || n == 0xA0 || n == 0x1680 || 0x2000 <= n <= 0x200A ||
    n == 0x2028 || n == 0x2029 || n == 0x202F || n == 0x205F || n == 0x3000
  }

  function TrimLeft(s: string): string {
    if s != "" && IsSpace(s[0]) then TrimLeft(s[1..]) else s
  }

  function TrimRight(s: string): string {
    if s != "" && IsSpace(s[|s| - 1]) then TrimRight(s[..|s| - 1]) else s
  }

  function Trim(s: string): string {
    TrimRight(TrimLeft(s))
  }

  /** Nothing left to trim. */
  predicate Trimmed(s: string) {
    s == "" || (!IsSpace(s[0]) && !IsSpace(s[|s| - 1]))
  }

  lemma {:induction false} TrimRightEnds(s: string)
    ensures TrimRight(s) == "" || !IsSpace(TrimRight(s)[|TrimRight(s)| - 1])
    ensures TrimRight(s) <= s
  {
    if s != "" && IsSpace(s[|s| - 1]) { TrimRightEnds(s[..|s| - 1]); }
  }

  lemma {:induction false} TrimLeftStarts(s: string)
    ensures TrimLeft(s) == "" || !IsSpace(TrimLeft(s)[0])
  {
    if s != "" && IsSpace(s[0]) { TrimLeftStarts(s[1..]); }
  }

  lemma TrimTrims(s: string)
    ensures Trimmed(Trim(s))
  {
    TrimLeftStarts(s);
    TrimRightEnds(TrimLeft(s));
  }

  lemma TrimFixed(s: string)
    requires Trimmed(s)
    ensures Trim(s) == s
  {
  }

  /** The white space characters, one by one. */
  lemma SpaceIff(c: char)
    ensures IsSpace(c) <==>
      c as int in {9, 10, 11, 12, 13, 32, 133, 160, 5760, 8192, 8193, 8194, 8195, 8196, 8197, 8198, 8199, 8200, 8201, 8202, 8232, 8233, 8239, 8287, 12288}
  {
  }

  predicate White(s: string) {
    forall c :: c in s ==> IsSpace(c)
  }

  /** Trimming takes the white space off both ends and nothing else. */
  lemma {:induction false} TrimMeans(left: string, core: string, right: string)
    requires White(left) && White(right) && Trimmed(core)
    ensures Trim(left + core + right) == core
  {
    if left != "" {
      assert (left + core + right)[1..] == left[1..] + core + right;
      TrimMeans(left[1..], core, right);
    } else if core == "" {
      assert left + core + right == right;
      AllWhite(right);
    } else {
      assert left + core + right == core + right;
      RightWhite(core, right);
    }
  }

  lemma {:induction false} AllWhite(s: string)
    requires White(s)
    ensures TrimLeft(s) == ""
  {
    if s != "" { AllWhite(s[1..]); }
  }

  lemma {:induction false} RightWhite(core: string, right: string)
    requires White(right) && core != "" && Trimmed(core)
    ensures TrimRight(core + right) == core
  {
    if right != "" {
      assert (core + right)[..|core + right| - 1] == core + right[..|right| - 1];
      RightWhite(core, right[..|right| - 1]);
    } else {
      assert core + right == core;
    }
  }
}
