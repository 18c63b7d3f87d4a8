/** Results and the white-space trimming every request field goes through. */
module Text {

  datatype Option<+T> = None | Some(value: T)

  datatype Result<+T, +E> = Ok(value: T) | Err(error: E)

  /** White space in the sense of the program's string library (Unicode White_Space). */
  predicate IsSpace(c: char) {
    var n := c as int;
    9 <= n <= 13 || n == 0x20 || n == 0x85 || n == 0xA0 || n == 0x1680 ||
    0x2000 <= n <= 0x200A || n == 0x2028 || n == 0x2029 || n == 0x202F || n == 0x205F || n == 0x3000
  }

  function TrimLeft(s: string): (r: string)
    ensures r == [] || !IsSpace(r[0])
    ensures |r| <= |s| && r == s[|s| - |r|..]
    ensures s == [] || !IsSpace(s[0]) ==> r == s
  {
    if s != [] && IsSpace(s[0]) then TrimLeft(s[1..]) else s
  }

  function TrimRight(s: string): (r: string)
    ensures r == [] || !IsSpace(r[|r| - 1])
    ensures r <= s
    ensures s == [] || !IsSpace(s[|s| - 1]) ==> r == s
  {
    if s != [] && IsSpace(s[|s| - 1]) then TrimRight(s[..|s| - 1]) else s
  }

  function TrimSpace(s: string): string {
    TrimRight(TrimLeft(s))
  }

  predicate Trimmed(s: string) {
    s == [] || (!IsSpace(s[0]) && !IsSpace(s[|s| - 1]))
  }

  /** Trimming yields a trimmed string and changes no trimmed string. */
  lemma TrimIsIdempotent(s: string)
    ensures Trimmed(TrimSpace(s))
    ensures TrimSpace(s) == s <==> Trimmed(s)
    ensures TrimSpace(TrimSpace(s)) == TrimSpace(s)
  {
    var l := TrimLeft(s);
    var t := TrimRight(l);
    if t != [] {
      assert t[0] == l[0];
    }
  }

  /** White space around a trimmed text, whatever it is, goes; nothing else does. */
  lemma PaddingGoes(before: string, s: string, after: string)
    requires Trimmed(s) && s != "" && (forall c <- before :: IsSpace(c)) && (forall c <- after :: IsSpace(c))
    ensures TrimSpace(before + s + after) == s
  {
    hide IsSpace, TrimLeft, TrimRight;
    var t := s + after;
    assert t[0] == s[0];
    LeftGoes(before, t);
    RightGoes(s, after);
    assert before + t == before + s + after;
  }

  lemma {:induction false} LeftGoes(before: string, s: string)
    requires s != "" && !IsSpace(s[0]) && forall c <- before :: IsSpace(c)
    ensures TrimLeft(before + s) == s
  {
    if before == "" {
      assert before + s == s;
    } else {
      assert (before + s)[1..] == before[1..] + s;
      LeftGoes(before[1..], s);
    }
  }

  lemma {:induction false} RightGoes(s: string, after: string)
    requires s != "" && !IsSpace(s[|s| - 1]) && forall c <- after :: IsSpace(c)
    ensures TrimRight(s + after) == s
  {
    if after == "" {
      assert s + after == s;
    } else {
      assert (s + after)[..|s + after| - 1] == s + after[..|after| - 1];
      RightGoes(s, after[..|after| - 1]);
    }
  }
}
