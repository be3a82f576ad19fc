/** Seat ids are UUIDs: one side sorts their text, the other side their bytes. */
module LockOrder {

  /** The 16 octets of a UUID (section 4 of RFC 9562). */
  type Uuid = u: seq<nat> | |u| == 16 && forall i | 0 <= i < 16 :: u[i] < 256
    witness [0, 0, 0, 0, 0, 0, 0, 0, 0, 0, 0, 0, 0, 0, 0, 0]

  /** How the database compares `uuid` values: octet by octet. */
  predicate BytesLess(a: seq<nat>, b: seq<nat>)
    decreases |a|
  {
    a != [] && b != [] && (a[0] < b[0] || (a[0] == b[0] && BytesLess(a[1..], b[1..])))
  }

  /** How Python compares `str` values: code point by code point, a proper prefix first. */
  predicate TextLess(a: string, b: string)
    decreases |a|
  {
    b != [] && (a == [] || a[0] < b[0] || (a[0] == b[0] && TextLess(a[1..], b[1..])))
  }

  function HexDigit(d: nat): char
    requires d < 16
  {
    if d < 10 then ('0' as int + d) as char else ('a' as int + (d - 10)) as char
  }

  predicate DashBefore(octet: nat) {
    octet == 4 || octet == 6 || octet == 8 || octet == 10
  }

  /** The canonical text of the octets from number `k` on: two hex digits each, dashes after 4, 6, 8 and 10. */
  function TextFrom(u: seq<nat>, k: nat): string
    requires forall i | 0 <= i < |u| :: u[i] < 256
    decreases |u|
  {
    if u == [] then "" else
      (if DashBefore(k) then "-" else "") + [HexDigit(u[0] / 16), HexDigit(u[0] % 16)] + TextFrom(u[1..], k + 1)
  }

  /** `str(uuid)`. */
  function Text(u: Uuid): string {
    TextFrom(u, 0)
  }

  lemma {:induction false} CommonPrefix(p: string, x: string, y: string)
    ensures TextLess(p + x, p + y) == TextLess(x, y)
    decreases |p|
  {
    if p == [] {
      assert p + x == x && p + y == y;
    } else {
      CommonPrefix(p[1..], x, y);
      assert (p + x)[1..] == p[1..] + x && (p + y)[1..] == p[1..] + y;
    }
  }

  /** Comparing two octets as two hex digits each. */
  lemma TwoDigits(a: nat, b: nat, x: string, y: string)
    requires a < 256 && b < 256
    ensures TextLess([HexDigit(a / 16), HexDigit(a % 16)] + x, [HexDigit(b / 16), HexDigit(b % 16)] + y)
      <==> a < b || (a == b && TextLess(x, y))
  {
    var p := [HexDigit(a / 16), HexDigit(a % 16)] + x;
    var q := [HexDigit(b / 16), HexDigit(b % 16)] + y;
    assert p[1..] == [HexDigit(a % 16)] + x && q[1..] == [HexDigit(b % 16)] + y;
    assert p[1..][1..] == x && q[1..][1..] == y;
    assert TextLess(p, q) <==> p[0] < q[0] || (p[0] == q[0] && TextLess(p[1..], q[1..]));
    assert TextLess(p[1..], q[1..]) <==> p[1..][0] < q[1..][0] || (p[1..][0] == q[1..][0] && TextLess(x, y));
  }

  lemma {:induction false} TextFromOrder(a: seq<nat>, b: seq<nat>, k: nat)
    requires |a| == |b|
    requires forall i | 0 <= i < |a| :: a[i] < 256 && b[i] < 256
    ensures TextLess(TextFrom(a, k), TextFrom(b, k)) <==> BytesLess(a, b)
    decreases |a|
  {
    if a != [] {
      var dash := if DashBefore(k) then "-" else "";
      var x := TextFrom(a[1..], k + 1);
      var y := TextFrom(b[1..], k + 1);
      var p := [HexDigit(a[0] / 16), HexDigit(a[0] % 16)] + x;
      var q := [HexDigit(b[0] / 16), HexDigit(b[0] % 16)] + y;
      assert TextFrom(a, k) == dash + p && TextFrom(b, k) == dash + q;
      CommonPrefix(dash, p, q);
      TwoDigits(a[0], b[0], x, y);
      TextFromOrder(a[1..], b[1..], k + 1);
    }
  }

  /** Sorting by `str(uuid)` is sorting by the database's order. */
  lemma SortingByTextIsSortingByBytes(a: Uuid, b: Uuid)
    ensures TextLess(Text(a), Text(b)) <==> BytesLess(a, b)
  {
    TextFromOrder(a, b, 0);
  }

  lemma {:induction false} BytesTrichotomy(a: seq<nat>, b: seq<nat>)
    requires |a| == |b|
    ensures a != b ==> BytesLess(a, b) || BytesLess(b, a)
    ensures !(BytesLess(a, b) && BytesLess(b, a)) && !BytesLess(a, a)
    decreases |a|
  {
    if a != [] {
      BytesTrichotomy(a[1..], b[1..]);
      BytesTrichotomy(a[1..], a[1..]);
      assert a == [a[0]] + a[1..] && b == [b[0]] + b[1..];
    }
  }

  lemma {:induction false} BytesTransitive(a: seq<nat>, b: seq<nat>, c: seq<nat>)
    requires BytesLess(a, b) && BytesLess(b, c)
    ensures BytesLess(a, c)
    decreases |a|
  {
    if a[0] == b[0] == c[0] {
      BytesTransitive(a[1..], b[1..], c[1..]);
    }
  }
}
