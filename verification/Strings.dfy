/** String operations the Go code relies on: byte order and the ASCII part of the strings package. */
module Strings {

  /** The order of Go's `<` on strings (code-point order, which is UTF-8 byte order). */
  predicate Less(a: string, b: string) {
    b != [] && (a == [] || a[0] < b[0] || (a[0] == b[0] && Less(a[1..], b[1..])))
  }

  lemma {:induction false} LessIrreflexive(a: string)
    ensures !Less(a, a)
  {
    if a == [] {
    } else {
      LessIrreflexive(a[1..]);
    }
  }

  lemma {:induction false} LessTransitive(a: string, b: string, c: string)
    requires Less(a, b) && Less(b, c)
    ensures Less(a, c)
  {
    if a != [] && a[0] == b[0] && b[0] == c[0] {
      LessTransitive(a[1..], b[1..], c[1..]);
    }
  }

  lemma {:induction false} LessTotal(a: string, b: string)
    ensures a == b || Less(a, b) || Less(b, a)
  {
    if a != [] && b != [] && a[0] == b[0] {
      LessTotal(a[1..], b[1..]);
      assert a == [a[0]] + a[1..] && b == [b[0]] + b[1..];
    }
  }

  /** The first difference decides, and a proper prefix comes first. */
  lemma {:induction false} LessMeans(a: string, b: string)
    ensures Less(a, b) <==> exists k :: 0 <= k <= |a| && k < |b| && Differ(a, b, k)
  {
    if a == [] || b == [] {
      assert b != [] ==> Differ(a, b, 0);
    } else {
      var ra, rb := a[1..], b[1..];
      LessMeans(ra, rb);
      if a[0] == b[0] {
        if k :| 0 <= k <= |ra| && k < |rb| && Differ(ra, rb, k) {
          assert a[..k + 1] == [a[0]] + ra[..k] && b[..k + 1] == [b[0]] + rb[..k];
          assert Differ(a, b, k + 1);
        }
        if k :| 0 <= k <= |a| && k < |b| && Differ(a, b, k) {
          assert 0 < k && ra[..k - 1] == a[..k][1..] && rb[..k - 1] == b[..k][1..];
          assert Differ(ra, rb, k - 1);
        }
      } else {
        assert Differ(a, b, 0) <==> a[0] < b[0];
        assert forall k :: 0 < k <= |a| && k < |b| && Differ(a, b, k) ==> a[..k][0] == b[..k][0];
      }
    }
  }

  /** Equal up to k, where a ends or has the smaller character. */
  predicate Differ(a: string, b: string, k: nat)
    requires k <= |a| && k < |b|
  {
    a[..k] == b[..k] && (k < |a| ==> a[k] < b[k])
  }

  predicate IsSpace(c: char) {
    c == ' ' || c == '\t' || c == '\n' || c == '\r' || c as int == 11 || c as int == 12
  }

  function TrimLeft(s: string): string {
    if s != [] && IsSpace(s[0]) then TrimLeft(s[1..]) else s
  }

  function TrimRight(s: string): string {
    if s != [] && IsSpace(s[|s| - 1]) then TrimRight(s[..|s| - 1]) else s
  }

  function TrimSpace(s: string): string {
    TrimRight(TrimLeft(s))
  }

  predicate Blank(s: string) {
    TrimSpace(s) == ""
  }

  lemma EmptyIsBlank()
    ensures Blank("")
  {
  }

  /** Tab, line feed, vertical tab, form feed, carriage return, blank. */
  predicate SpaceCode(c: char) {
    9 <= c as int <= 13 || c as int == 32
  }

  lemma {:induction false} TrimLeftCuts(s: string) returns (i: nat)
    ensures i <= |s| && TrimLeft(s) == s[i..] && forall k :: 0 <= k < i ==> SpaceCode(s[k])
    ensures i < |s| ==> !SpaceCode(s[i])
  {
    if s != [] && IsSpace(s[0]) {
      i := TrimLeftCuts(s[1..]);
      i := i + 1;
    } else {
      i := 0;
    }
  }

  lemma {:induction false} TrimRightCuts(s: string) returns (j: nat)
    ensures j <= |s| && TrimRight(s) == s[..j] && forall k :: j <= k < |s| ==> SpaceCode(s[k])
    ensures 0 < j ==> !SpaceCode(s[j - 1])
  {
    if s != [] && IsSpace(s[|s| - 1]) {
      j := TrimRightCuts(s[..|s| - 1]);
      assert s[..|s| - 1][..j] == s[..j];
    } else {
      j := |s|;
    }
  }

  /** Trimming cuts off white space and nothing else, at both ends, as far as it goes. */
  lemma TrimSpaceMeans(s: string) returns (i: nat, j: nat)
    ensures i <= j <= |s| && TrimSpace(s) == s[i..j]
    ensures forall k :: 0 <= k < i || j <= k < |s| ==> SpaceCode(s[k])
    ensures i < j ==> !SpaceCode(s[i]) && !SpaceCode(s[j - 1])
  {
    i := TrimLeftCuts(s);
    var n := TrimRightCuts(s[i..]);
    j := i + n;
    assert s[i..][..n] == s[i..j];
    forall k | j <= k < |s| ensures SpaceCode(s[k]) {
      assert s[k] == s[i..][k - i];
    }
  }

  lemma BlankMeans(s: string)
    ensures Blank(s) <==> forall k :: 0 <= k < |s| ==> SpaceCode(s[k])
  {
    var i, j := TrimSpaceMeans(s);
  }

  function LowerChar(c: char): char {
    if 'A' <= c <= 'Z' then (c as int + 32) as char else c
  }

  function ToLower(s: string): string {
    seq(|s|, i requires 0 <= i < |s| => LowerChar(s[i]))
  }

  function UpperChar(c: char): char {
    if 'a' <= c <= 'z' then (c as int - 32) as char else c
  }

  function ToUpper(s: string): string {
    seq(|s|, i requires 0 <= i < |s| => UpperChar(s[i]))
  }

  predicate EqualFold(a: string, b: string) {
    ToLower(a) == ToLower(b)
  }

  /** The same character, or the two cases of one of the 26 letters. */
  predicate SameLetter(a: char, b: char) {
    || a == b
    || ('A' <= a <= 'Z' && b as int == a as int + 32)
    || ('A' <= b <= 'Z' && a as int == b as int + 32)
  }

  lemma EqualFoldMeans(a: string, b: string)
    ensures EqualFold(a, b) <==> |a| == |b| && forall i :: 0 <= i < |a| ==> SameLetter(a[i], b[i])
  {
    if EqualFold(a, b) {
      forall i | 0 <= i < |a| ensures SameLetter(a[i], b[i]) {
        assert ToLower(a)[i] == ToLower(b)[i];
      }
    }
  }

  /** Changing case leaves no letter of the other case and nothing else changed. */
  lemma CaseMeans(s: string)
    ensures |ToLower(s)| == |ToUpper(s)| == |s|
    ensures forall i :: 0 <= i < |s| ==> SameLetter(ToLower(s)[i], s[i]) && !('A' <= ToLower(s)[i] <= 'Z')
    ensures forall i :: 0 <= i < |s| ==> SameLetter(ToUpper(s)[i], s[i]) && !('a' <= ToUpper(s)[i] <= 'z')
  {
  }

  /** Lower-cased protocol, "tcp" when blank. */
  function NormProto(p: string): string {
    var q := ToLower(TrimSpace(p));
    if q == "" then "tcp" else q
  }

  /** Any spelling of "udp" is udp; blank and any spelling of "tcp" are tcp. */
  lemma NormProtoMeans(p: string)
    ensures EqualFold(TrimSpace(p), "udp") ==> NormProto(p) == "udp"
    ensures Blank(p) || EqualFold(TrimSpace(p), "tcp") ==> NormProto(p) == "tcp"
    ensures ToLower(TrimSpace(p)) in {"", "tcp", "udp"} <==>
      Blank(p) || EqualFold(TrimSpace(p), "tcp") || EqualFold(TrimSpace(p), "udp")
  {
    assert ToLower("udp") == "udp" && ToLower("tcp") == "tcp";
    assert |ToLower(TrimSpace(p))| == |TrimSpace(p)|;
  }
}
