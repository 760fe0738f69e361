/**
 * The identifier format of updateWalk's check in src/controllers/walksController.ts: the
 * case-insensitive pattern `^[0-9a-f]{8}-[0-9a-f]{4}-[0-9a-f]{4}-[0-9a-f]{4}-[0-9a-f]{12}$`.
 * The database stores identifiers in lower case and compares them without regard to case.
 */
module Uuid {

  predicate IsHex(c: char) {
    ('0' <= c <= '9') || ('a' <= c <= 'f') || ('A' <= c <= 'F')
  }

  predicate AllHex(s: string) {
    forall i :: 0 <= i < |s| ==> IsHex(s[i])
  }

  /** The positions of the four dashes. */
  predicate DashAt(i: int) {
    i == 8 || i == 13 || i == 18 || i == 23
  }

  /** The regular-expression test, position by position. */
  predicate IsUuid(s: string) {
    |s| == 36 && forall i :: 0 <= i < 36 ==> if DashAt(i) then s[i] == '-' else IsHex(s[i])
  }

  function LowerChar(c: char): char {
    if 'A' <= c <= 'F' then (c as int - 'A' as int + 'a' as int) as char else c
  }

  /** The canonical (lower-case) form in which the database stores and compares an identifier. */
  function Lower(s: string): (r: string)
    ensures |r| == |s|
    ensures forall i :: 0 <= i < |s| ==> r[i] == LowerChar(s[i])
  {
    if s == [] then [] else [LowerChar(s[0])] + Lower(s[1..])
  }

  /** A well-formed identifier in the form the database generates. */
  predicate IsCanonical(s: string) {
    IsUuid(s) && Lower(s) == s
  }

  /** The five groups of the pattern, joined by dashes, are exactly the accepted strings. */
  lemma UuidFromGroups(a: string, b: string, c: string, d: string, e: string)
    requires |a| == 8 && |b| == 4 && |c| == 4 && |d| == 4 && |e| == 12
    requires AllHex(a) && AllHex(b) && AllHex(c) && AllHex(d) && AllHex(e)
    ensures IsUuid(a + "-" + b + "-" + c + "-" + d + "-" + e)
  {
    var s := a + "-" + b + "-" + c + "-" + d + "-" + e;
    forall i | 0 <= i < 36 ensures if DashAt(i) then s[i] == '-' else IsHex(s[i]) {
      if i < 8 { assert s[i] == a[i]; }
      else if 9 <= i < 13 { assert s[i] == b[i - 9]; }
      else if 14 <= i < 18 { assert s[i] == c[i - 14]; }
      else if 19 <= i < 23 { assert s[i] == d[i - 19]; }
      else if 24 <= i { assert s[i] == e[i - 24]; }
    }
  }

  lemma UuidToGroups(s: string)
    requires IsUuid(s)
    ensures s == s[..8] + "-" + s[9..13] + "-" + s[14..18] + "-" + s[19..23] + "-" + s[24..]
    ensures AllHex(s[..8]) && AllHex(s[9..13]) && AllHex(s[14..18]) && AllHex(s[19..23]) && AllHex(s[24..])
  {
    assert AllHex(s[..8]) by { forall i | 0 <= i < 8 ensures IsHex(s[..8][i]) { assert !DashAt(i); } }
    assert AllHex(s[9..13]) by { forall i | 0 <= i < 4 ensures IsHex(s[9..13][i]) { assert !DashAt(i + 9); } }
    assert AllHex(s[14..18]) by { forall i | 0 <= i < 4 ensures IsHex(s[14..18][i]) { assert !DashAt(i + 14); } }
    assert AllHex(s[19..23]) by { forall i | 0 <= i < 4 ensures IsHex(s[19..23][i]) { assert !DashAt(i + 19); } }
    assert AllHex(s[24..]) by { forall i | 0 <= i < 12 ensures IsHex(s[24..][i]) { assert !DashAt(i + 24); } }
    assert s[8] == '-' && s[13] == '-' && s[18] == '-' && s[23] == '-';
    var t := s[..8] + "-" + s[9..13] + "-" + s[14..18] + "-" + s[19..23] + "-" + s[24..];
    assert |t| == 36;
    forall i | 0 <= i < 36 ensures t[i] == s[i] {
      if i < 8 { } else if i == 8 { } else if i < 13 { } else if i == 13 { }
      else if i < 18 { } else if i == 18 { } else if i < 23 { } else if i == 23 { } else { }
    }
  }

  /** The test ignores case: lowering never changes the verdict. */
  lemma IsUuidIgnoresCase(s: string)
    ensures IsUuid(Lower(s)) <==> IsUuid(s)
  {
    if |s| == 36 {
      forall i | 0 <= i < 36 ensures (if DashAt(i) then Lower(s)[i] == '-' else IsHex(Lower(s)[i]))
                                    <==> (if DashAt(i) then s[i] == '-' else IsHex(s[i])) {
      }
    }
  }

  /** Lowering a well-formed identifier gives its canonical form. */
  lemma LowerIsCanonical(s: string)
    requires IsUuid(s)
    ensures IsCanonical(Lower(s))
  {
    IsUuidIgnoresCase(s);
    var l := Lower(s);
    assert Lower(l) == l by {
      forall i | 0 <= i < |l| ensures Lower(l)[i] == l[i] { }
    }
  }

  /** The all-zero identifier passes. */
  lemma NilUuidAccepted()
    ensures IsUuid("00000000-0000-0000-0000-000000000000")
  {
    var s := "00000000-0000-0000-0000-000000000000";
    forall i | 0 <= i < 36 ensures if DashAt(i) then s[i] == '-' else IsHex(s[i]) {
    }
  }

  /** The pattern is case-insensitive: upper-case hex digits pass. */
  lemma MixedCaseAccepted()
    ensures IsUuid("ABCDEF01-2345-6789-abcd-ef0123456789")
  {
    var s := "ABCDEF01-2345-6789-abcd-ef0123456789";
    forall i | 0 <= i < 36 ensures if DashAt(i) then s[i] == '-' else IsHex(s[i]) {
    }
  }

  lemma MalformedRejected()
    ensures !IsUuid("not-a-uuid")
    ensures !IsUuid("00000000-0000-0000-0000-00000000000g")
  {
    assert !IsHex("00000000-0000-0000-0000-00000000000g"[35]);
  }
}
