/** Python's view of white space in strings. */
module Text {

  predicate IsSpace(c: char) {
    || '\t' <= c <= '\r' || '\U{1c}' <= c <= ' ' || c == '\U{85}' || c == '\U{a0}' || c == '\U{1680}'
    || '\U{2000}' <= c <= '\U{200a}' || c == '\U{2028}' || c == '\U{2029}' || c == '\U{202f}' || c == '\U{205f}'
        || c == '\U{3000}'
  }

  function Strip(s: string): string {
    if s == [] then []
    else if IsSpace(s[0]) then Strip(s[1..])
    else if IsSpace(s[|s| - 1]) then Strip(s[..|s| - 1])
    else s
  }

  lemma {:induction false} StripSpaceAfter(s: string, c: char)
    requires IsSpace(c)
    ensures Strip(s + [c]) == Strip(s)
  {
    if s == [] {
      assert [c][1..] == [];
    } else if IsSpace(s[0]) {
      assert (s + [c])[1..] == s[1..] + [c];
      StripSpaceAfter(s[1..], c);
    } else {
      assert (s + [c])[..|s|] == s;
    }
  }

  lemma StripSpaceBefore(s: string, c: char)
    requires IsSpace(c)
    ensures Strip([c] + s) == Strip(s)
  {
    assert ([c] + s)[1..] == s;
  }

  /** The characters that Python strips, by code point. */
  lemma SpaceCodes(c: char)
    ensures IsSpace(c) <==>
            c as int in {9, 10, 11, 12, 13, 28, 29, 30, 31, 32, 133, 160, 5760,
                         8192, 8193, 8194, 8195, 8196, 8197, 8198, 8199, 8200, 8201, 8202,
                         8232, 8233, 8239, 8287, 12288}
  {
    var n := c as int;
    assert IsSpace(c) <==>
           || 9 <= n <= 13 || 28 <= n <= 32 || n == 133 || n == 160 || n == 5760 || 8192 <= n <= 8202
           || n == 8232 || n == 8233 || n == 8239 || n == 8287 || n == 12288;
  }

  /** The text from `i` to `j` with nothing but white space around it, and none at its ends. */
  predicate IsTrimmed(s: string, i: nat, j: nat) {
    && i <= j <= |s|
    && (forall k :: 0 <= k < i ==> IsSpace(s[k])) && (forall k :: j <= k < |s| ==> IsSpace(s[k]))
    && (i < j ==> !IsSpace(s[i]) && !IsSpace(s[j - 1]))
  }

  lemma {:induction false} StripTrims(s: string, i: nat, j: nat)
    requires IsTrimmed(s, i, j)
    ensures Strip(s) == s[i..j]
    decreases |s|
  {
    if s != [] {
      if IsSpace(s[0]) {
        if i > 0 {
          StripTrims(s[1..], i - 1, j - 1);
          assert s[1..][i - 1..j - 1] == s[i..j];
        } else {
          assert j == 0;
          StripTrims(s[1..], 0, 0);
        }
      } else if IsSpace(s[|s| - 1]) {
        StripTrims(s[..|s| - 1], i, j);
      }
    }
  }

  lemma {:induction false} TrimExists(s: string) returns (i: nat, j: nat)
    ensures IsTrimmed(s, i, j)
    decreases |s|
  {
    i, j := 0, |s|;
    if s != [] {
      if IsSpace(s[0]) {
        i, j := TrimExists(s[1..]);
        i, j := i + 1, j + 1;
        forall k | 0 <= k < i ensures IsSpace(s[k]) {
          if k > 0 { assert s[k] == s[1..][k - 1]; }
        }
        forall k | j <= k < |s| ensures IsSpace(s[k]) {
          assert s[k] == s[1..][k - 1];
        }
      } else if IsSpace(s[|s| - 1]) {
        i, j := TrimExists(s[..|s| - 1]);
      }
    }
  }
}
