// The pieces of Python's text semantics the project relies on: whitespace,
// strip(), and the code-point order of strings.
module PyText {

  predicate IsSpace(c: char) {
    var k := c as int;
    9 <= k <= 13 || 28 <= k <= 32 || k == 0x85 || k == 0xA0 || k == 0x1680 || 0x2000 <= k <= 0x200A
    || k == 0x2028 || k == 0x2029 || k == 0x202F || k == 0x205F || k == 0x3000
  }

  // Nothing is left after stripping.
  predicate Blank(s: string) { forall i :: 0 <= i < |s| ==> IsSpace(s[i]) }

  function LStrip(s: string): string {
    if s != "" && IsSpace(s[0]) then LStrip(s[1..]) else s
  }

  function RStrip(s: string): string {
    if s != "" && IsSpace(s[|s| - 1]) then RStrip(s[..|s| - 1]) else s
  }

  function Strip(s: string): string { RStrip(LStrip(s)) }

  // RStrip keeps the first character of whatever it does not empty.
  lemma {:induction false} RStripKeepsHead(s: string)
    ensures RStrip(s) != "" ==> s != "" && RStrip(s)[0] == s[0]
    ensures RStrip(RStrip(s)) == RStrip(s)
  {
    if s != "" && IsSpace(s[|s| - 1]) { RStripKeepsHead(s[..|s| - 1]); }
  }

  lemma {:induction false} LStripStops(s: string)
    ensures LStrip(s) == "" || !IsSpace(LStrip(s)[0])
  {
    if s != "" && IsSpace(s[0]) { LStripStops(s[1..]); }
  }

  // Stripping twice is stripping once.
  lemma {:induction false} StripTwice(s: string)
    ensures Strip(Strip(s)) == Strip(s)
  {
    LStripStops(s);
    RStripKeepsHead(LStrip(s));
  }

  // Only whitespace goes, all of it at the two ends.
  lemma {:induction false} StripMeans(s: string) returns (left: nat, right: nat)
    ensures left <= right <= |s| && Strip(s) == s[left..right]
    ensures forall i :: 0 <= i < left || right <= i < |s| ==> IsSpace(s[i])
    ensures left < right ==> !IsSpace(s[left]) && !IsSpace(s[right - 1])
  {
    left := LeftEnd(s);
    right := RightEnd(s[left..]);
    LStripStops(s);
    right := left + right;
    assert s[left..][..right - left] == s[left..right];
    forall i | right <= i < |s| ensures IsSpace(s[i]) { assert s[i] == s[left..][i - left]; }
  }

  lemma {:induction false} LeftEnd(s: string) returns (left: nat)
    ensures left <= |s| && LStrip(s) == s[left..] && forall i :: 0 <= i < left ==> IsSpace(s[i])
  {
    left := 0;
    if s != "" && IsSpace(s[0]) {
      left := LeftEnd(s[1..]);
      left := left + 1;
      assert s[left..] == s[1..][left - 1..];
      forall i | 0 <= i < left ensures IsSpace(s[i]) { if i > 0 { assert s[i] == s[1..][i - 1]; } }
    }
  }

  lemma {:induction false} RightEnd(s: string) returns (right: nat)
    ensures right <= |s| && RStrip(s) == s[..right] && forall i :: right <= i < |s| ==> IsSpace(s[i])
    ensures right > 0 ==> !IsSpace(s[right - 1])
  {
    right := |s|;
    assert s[..|s|] == s;
    if s != "" && IsSpace(s[|s| - 1]) {
      right := RightEnd(s[..|s| - 1]);
      assert s[..right] == s[..|s| - 1][..right];
      forall i | right <= i < |s| ensures IsSpace(s[i]) {
        if i < |s| - 1 { assert s[i] == s[..|s| - 1][i]; }
      }
    }
  }

  predicate Less(a: string, b: string) {
    b != "" && (a == "" || a[0] < b[0] || (a[0] == b[0] && Less(a[1..], b[1..])))
  }

  // One text runs out, or the first characters that differ decide.
  ghost predicate Precedes(a: string, b: string) {
    exists k: nat :: k <= |a| && k < |b| && a[..k] == b[..k] && (k == |a| || a[k] < b[k])
  }

  lemma {:induction false} LessPrecedes(a: string, b: string)
    ensures Less(a, b) <==> Precedes(a, b)
    decreases |a|
  {
    assert a[..0] == b[..0];
    forall k: nat | 0 < k <= |a| && k <= |b| && a[..k] == b[..k] ensures a[0] == b[0] {
      assert a[..k][0] == b[..k][0];
    }
    if a != "" && b != "" && a[0] == b[0] {
      LessPrecedes(a[1..], b[1..]);
      if k: nat :| k <= |a| && k < |b| && a[..k] == b[..k] && (k == |a| || a[k] < b[k]) {
        assert k > 0;
        assert a[1..][..k - 1] == a[..k][1..] && b[1..][..k - 1] == b[..k][1..];
      }
      if k: nat :| k <= |a[1..]| && k < |b[1..]| && a[1..][..k] == b[1..][..k]
                   && (k == |a[1..]| || a[1..][k] < b[1..][k]) {
        assert a[..k + 1] == [a[0]] + a[1..][..k] && b[..k + 1] == [b[0]] + b[1..][..k];
      }
    }
  }

  lemma {:induction false} LessTrichotomy(a: string, b: string)
    ensures Less(a, b) || Less(b, a) || a == b
    ensures !(Less(a, b) && Less(b, a))
    decreases |a|
  {
    if a != "" && b != "" && a[0] == b[0] {
      LessTrichotomy(a[1..], b[1..]);
      assert a == [a[0]] + a[1..] && b == [b[0]] + b[1..];
    }
  }

  lemma {:induction false} LessTransitive(a: string, b: string, c: string)
    requires Less(a, b) && Less(b, c)
    ensures Less(a, c)
    decreases |a|
  {
    if a != "" && a[0] == b[0] && b[0] == c[0] { LessTransitive(a[1..], b[1..], c[1..]); }
  }

  // Python orders tuples by the first component that differs.
  type Key = (string, string)

  predicate KeyLess(a: Key, b: Key) { Less(a.0, b.0) || (a.0 == b.0 && Less(a.1, b.1)) }

  lemma {:induction false} KeyPrecedes(a: Key, b: Key)
    ensures KeyLess(a, b) <==> Precedes(a.0, b.0) || (a.0 == b.0 && Precedes(a.1, b.1))
  {
    LessPrecedes(a.0, b.0);
    LessPrecedes(a.1, b.1);
  }

  lemma {:induction false} KeyTrichotomy(a: Key, b: Key)
    ensures KeyLess(a, b) || KeyLess(b, a) || a == b
    ensures !(KeyLess(a, b) && KeyLess(b, a)) && !KeyLess(a, a)
  {
    LessTrichotomy(a.0, b.0);
    LessTrichotomy(a.1, b.1);
    LessTrichotomy(a.0, a.0);
    LessTrichotomy(a.1, a.1);
  }

  lemma {:induction false} KeyTransitive(a: Key, b: Key, c: Key)
    requires KeyLess(a, b) && KeyLess(b, c)
    ensures KeyLess(a, c)
  {
    if Less(a.0, b.0) && Less(b.0, c.0) { LessTransitive(a.0, b.0, c.0); }
    LessTrichotomy(a.0, a.0);
    if a.0 == b.0 == c.0 { LessTransitive(a.1, b.1, c.1); }
  }
}
