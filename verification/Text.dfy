/**
 The string operations the configuration code relies on: strings.TrimSpace,
 strings.ToUpper and the byte order of Go strings. Strings are sequences of
 code points; for valid UTF-8 the byte order and the code point order agree.
 */
module Text {

  /** unicode.IsSpace. */
  predicate IsSpace(c: char) {
    var n := c as int;
    || 0x09 <= n <= 0x0D || n == 0x20 || n == 0x85 || n == 0xA0 || n == 0x1680
    || 0x2000 <= n <= 0x200A || n == 0x2028 || n == 0x2029 || n == 0x202F
    || n == 0x205F || n == 0x3000
  }

  /** Within Latin-1: tab, the four line and page breaks, blank, next line and
      no-break space. */
  lemma LatinSpaces(c: char)
    requires c as int < 256
    ensures IsSpace(c) <==> c in {'\t', '\n', '\U{0B}', '\U{0C}', '\r', ' ', '\U{85}', '\U{A0}'}
  {
  }

  /** No white space at either end. */
  predicate IsTrimmed(s: string) {
    s == "" || (!IsSpace(s[0]) && !IsSpace(s[|s| - 1]))
  }

  predicate AllSpace(s: string) {
    forall i | 0 <= i < |s| :: IsSpace(s[i])
  }

  function TrimRight(s: string): string {
    if s != "" && IsSpace(s[|s| - 1]) then TrimRight(s[..|s| - 1]) else s
  }

  /** strings.TrimSpace. */
  function TrimSpace(s: string): string {
    if s != "" && IsSpace(s[0]) then TrimSpace(s[1..]) else TrimRight(s)
  }

  lemma {:induction false} TrimRightKeepsPrefix(s: string)
    ensures TrimRight(s) <= s && AllSpace(s[|TrimRight(s)|..])
    ensures TrimRight(s) == "" || !IsSpace(TrimRight(s)[|TrimRight(s)| - 1])
  {
    if s != "" && IsSpace(s[|s| - 1]) {
      var init := s[..|s| - 1];
      TrimRightKeepsPrefix(init);
      assert s[|TrimRight(s)|..] == init[|TrimRight(init)|..] + [s[|s| - 1]];
    }
  }

  lemma {:induction false} TrimSpaceTrims(s: string)
    ensures IsTrimmed(TrimSpace(s))
  {
    if s != "" && IsSpace(s[0]) {
      TrimSpaceTrims(s[1..]);
    } else {
      TrimRightKeepsPrefix(s);
    }
  }

  lemma TrimmedIsFixed(s: string)
    requires IsTrimmed(s)
    ensures TrimSpace(s) == s
  {
  }

  /** Trimming twice is trimming once, and only padded strings change. */
  lemma TrimIdempotent(s: string)
    ensures TrimSpace(TrimSpace(s)) == TrimSpace(s)
    ensures TrimSpace(s) == s <==> IsTrimmed(s)
  {
    TrimSpaceTrims(s);
    TrimmedIsFixed(TrimSpace(s));
    if IsTrimmed(s) { TrimmedIsFixed(s); }
  }

  /** A text is some white space, then its trimmed form, then some white space. */
  lemma {:induction false} TrimKeepsCore(s: string) returns (before: string, after: string)
    ensures s == before + TrimSpace(s) + after && AllSpace(before) && AllSpace(after)
  {
    if s != "" && IsSpace(s[0]) {
      before, after := TrimKeepsCore(s[1..]);
      before := [s[0]] + before;
      assert s == [s[0]] + s[1..];
    } else {
      TrimRightKeepsPrefix(s);
      before, after := "", s[|TrimRight(s)|..];
    }
  }

  /** strings.ToUpper on the hexadecimal text of a device address. */
  function ToUpper(s: string): (r: string)
    ensures |r| == |s|
  {
    seq(|s|, i requires 0 <= i < |s| => if 'a' <= s[i] <= 'z' then 'A' + (s[i] - 'a') else s[i])
  }

  /** The same letter, or the two cases of one. */
  predicate SameButCase(c: char, d: char) {
    || c == d
    || ('a' <= c <= 'z' && c as int - d as int == 'a' as int - 'A' as int)
    || ('a' <= d <= 'z' && d as int - c as int == 'a' as int - 'A' as int)
  }

  predicate EqualButCase(s: string, t: string) {
    |s| == |t| && forall i | 0 <= i < |s| :: SameButCase(s[i], t[i])
  }

  /** Upper case forgets the case of letters and nothing else, and leaves no letter in
      lower case. */
  lemma ToUpperFoldsCase(s: string, t: string)
    ensures ToUpper(s) == ToUpper(t) <==> EqualButCase(s, t)
    ensures forall i | 0 <= i < |s| :: !('a' <= ToUpper(s)[i] <= 'z') && SameButCase(s[i], ToUpper(s)[i])
    ensures ToUpper(ToUpper(s)) == ToUpper(s)
  {
    if ToUpper(s) == ToUpper(t) {
      forall i | 0 <= i < |s| ensures SameButCase(s[i], t[i]) {
        assert ToUpper(s)[i] == ToUpper(t)[i];
      }
    }
  }

  /** The strict order used by sort.Slice on identifiers. */
  predicate Before(a: string, b: string) {
    b != "" && (a == "" || a[0] < b[0] || (a[0] == b[0] && Before(a[1..], b[1..])))
  }

  /** The texts agree up to k, and the first has the smaller code point there. */
  predicate FirstDiffers(a: string, b: string, k: nat) {
    k < |a| && k < |b| && a[..k] == b[..k] && a[k] < b[k]
  }

  lemma FirstDiffersLater(a: string, b: string, k: nat)
    requires a != "" && b != "" && a[0] == b[0]
    ensures FirstDiffers(a, b, k + 1) <==> FirstDiffers(a[1..], b[1..], k)
  {
    if k < |a| - 1 && k < |b| - 1 {
      assert a[..k + 1] == [a[0]] + a[1..][..k] && b[..k + 1] == [b[0]] + b[1..][..k];
      assert a[..k + 1][1..] == a[1..][..k] && b[..k + 1][1..] == b[1..][..k];
    }
  }

  /** It is the lexicographic order of code points: one text is before another if it is
      a proper prefix, or has the smaller code point where they first differ. */
  lemma {:induction false} BeforeIsLexicographic(a: string, b: string)
    ensures Before(a, b) <==> a < b || exists k: nat :: FirstDiffers(a, b, k)
  {
    if a != "" && b != "" {
      if a[0] == b[0] {
        BeforeIsLexicographic(a[1..], b[1..]);
        assert a == [a[0]] + a[1..] && b == [b[0]] + b[1..];
        assert a < b <==> a[1..] < b[1..];
        if k: nat :| FirstDiffers(a, b, k) {
          FirstDiffersLater(a, b, k - 1);
        }
        if k: nat :| FirstDiffers(a[1..], b[1..], k) {
          FirstDiffersLater(a, b, k);
        }
      } else if a[0] < b[0] {
        assert FirstDiffers(a, b, 0);
      } else {
        forall k: nat ensures !FirstDiffers(a, b, k) {
          if 0 < k <= |a| && k <= |b| {
            assert a[..k][0] == a[0] && b[..k][0] == b[0];
          }
        }
      }
    }
  }

  lemma BeforeIrreflexive(a: string)
    ensures !Before(a, a)
  {
  }

  lemma {:induction false} BeforeTransitive(a: string, b: string, c: string)
    requires !Before(b, a) && !Before(c, b)
    ensures !Before(c, a)
  {
    if a != "" && b != "" && c != "" && a[0] == b[0] && b[0] == c[0] {
      BeforeTransitive(a[1..], b[1..], c[1..]);
    }
  }

  lemma {:induction false} BeforeTotal(a: string, b: string)
    ensures Before(a, b) || Before(b, a) || a == b
    ensures !(Before(a, b) && Before(b, a))
  {
    if a != "" && b != "" && a[0] == b[0] {
      BeforeTotal(a[1..], b[1..]);
      assert a == [a[0]] + a[1..] && b == [b[0]] + b[1..];
    }
  }
}
