/**
 DHCP option 43: the encapsulated vendor sub-options of section 8.4 of RFC 2132.
 A sub-option is a code, a length and a value; the list is closed by 0xff and may
 come in any order.
 */
module Option43 {
  import opened Bytes

  const PAD: byte := 0
  const END: byte := 255

  /** Sub-options by code. */
  type Options = map<byte, seq<byte>>

  /** The sub-options that have an encoding. */
  predicate Encodable(m: Options) {
    forall c :: c in m ==> c != PAD && c != END && |m[c]| <= 255
  }

  function Tlv(c: byte, v: seq<byte>): seq<byte>
    requires |v| <= 255
  {
    [c, |v|] + v
  }

  /** The encoding of the sub-options in the given order. */
  function Encode(order: seq<byte>, m: Options): seq<byte>
    requires forall k :: 0 <= k < |order| ==> order[k] in m && |m[order[k]]| <= 255
  {
    if order == [] then [END] else Tlv(order[0], m[order[0]]) + Encode(order[1..], m)
  }

  /** `order` lists codes of `m`, each once. */
  ghost predicate Lists(order: seq<byte>, m: Options) {
    && (forall k :: 0 <= k < |order| ==> order[k] in m)
    && (forall j, k :: 0 <= j < k < |order| ==> order[j] != order[k])
  }

  ghost predicate EncodedBy(order: seq<byte>, m: Options, b: seq<byte>) {
    Encodable(m) && Lists(order, m) && (forall c :: c in m ==> c in order) && b == Encode(order, m)
  }

  /** `b` is what serialising `m` may produce, in some order. */
  ghost predicate Encodes(b: seq<byte>, m: Options) {
    exists order :: EncodedBy(order, m, b)
  }

  /** What deserialising leaves in the map, and whether it met an error; on an
      error the sub-options read so far stay. */
  datatype Decoded = Decoded(options: Options, ok: bool)

  function DecodeInto(b: seq<byte>, m: Options): Decoded
    decreases |b|
  {
    if b == [] then Decoded(m, false)
    else if b[0] == END then Decoded(m, true)
    else if b[0] == PAD then DecodeInto(b[1..], m)
    else if |b| < 2 then Decoded(m, false)
    else
      var len: int := b[1];
      var end := 2 + len;
      if |b| < end then Decoded(m, false) else DecodeInto(b[end..], m[b[0] := b[2..end]])
  }

  function Decode(b: seq<byte>): Decoded {
    DecodeInto(b, map[])
  }

  /** Sub-options of `m` listed in `order`. */
  ghost function Listed(order: seq<byte>, m: Options): Options {
    map c | c in m && c in order :: m[c]
  }

  lemma ListedStep(order: seq<byte>, m: Options, start: Options)
    requires order != [] && order[0] in m && order[0] !in order[1..]
    ensures start[order[0] := m[order[0]]] + Listed(order[1..], m) == start + Listed(order, m)
  {
  }

  lemma DecodeTlv(c: byte, v: seq<byte>, rest: seq<byte>, start: Options)
    requires c != PAD && c != END && |v| <= 255
    ensures DecodeInto(Tlv(c, v) + rest, start) == DecodeInto(rest, start[c := v])
  {
    var b := Tlv(c, v) + rest;
    assert b[0] == c && b[1] == |v| && b[2..2 + |v|] == v && b[2 + |v|..] == rest;
  }

  lemma {:induction false} DecodeEncode(order: seq<byte>, m: Options, start: Options)
    requires Encodable(m) && Lists(order, m)
    ensures DecodeInto(Encode(order, m), start) == Decoded(start + Listed(order, m), true)
    decreases |order|
  {
    if order == [] {
      assert start + Listed(order, m) == start;
    } else {
      var c, v := order[0], m[order[0]];
      DecodeTlv(c, v, Encode(order[1..], m), start);
      DecodeEncode(order[1..], m, start[c := v]);
      ListedStep(order, m, start);
    }
  }

  /** Decoding inverts encoding, for every order of the sub-options. */
  lemma DecodeInverts(b: seq<byte>, m: Options)
    requires Encodes(b, m)
    ensures Decode(b) == Decoded(m, true)
  {
    var order :| EncodedBy(order, m, b);
    DecodeEncode(order, m, map[]);
    assert map[] + Listed(order, m) == m;
  }

  /** Serialising walks the map in an order of its own choice. What comes out for
      sub-options that have no encoding is left open. */
  method Serialize(m: Options) returns (b: seq<byte>)
    ensures Encodable(m) ==> Encodes(b, m)
  {
    if !Encodable(m) {
      b := *;
      return;
    }
    b := [];
    ghost var order: seq<byte> := [];
    var left := m.Keys;
    while left != {}
      invariant left <= m.Keys && Lists(order, m)
      invariant forall c :: c in m ==> (c in left <==> c !in order)
      invariant b + [END] == Encode(order, m)
      decreases left
    {
      var c: byte :| c in left;
      EncodeSnoc(order, c, m);
      b := b + Tlv(c, m[c]);
      order := order + [c];
      left := left - {c};
    }
    b := b + [END];
    assert EncodedBy(order, m, b);
  }

  lemma {:induction false} EncodeSnoc(order: seq<byte>, c: byte, m: Options)
    requires forall k :: 0 <= k < |order| ==> order[k] in m && |m[order[k]]| <= 255
    requires c in m && |m[c]| <= 255
    ensures var e := Encode(order, m);
      |e| > 0 && Encode(order + [c], m) == e[..|e| - 1] + Tlv(c, m[c]) + [END]
    decreases |order|
  {
    var e := Encode(order, m);
    var snoc := order + [c];
    if order == [] {
      assert snoc[1..] == [];
    } else {
      EncodeSnoc(order[1..], c, m);
      assert snoc[1..] == order[1..] + [c] && snoc[0] == order[0];
      var t, r := Tlv(order[0], m[order[0]]), Encode(order[1..], m);
      assert e[..|e| - 1] == t + r[..|r| - 1];
    }
  }

  // ---- the last value set for each code ------------------------------------

  datatype SubOption = SubOption(code: byte, value: seq<byte>)

  /** A sequence of sub-option settings; an empty value sets nothing. */
  function Overlay(m: Options, sets: seq<SubOption>): Options {
    if sets == [] then m
    else
      var r := Overlay(m, sets[..|sets| - 1]);
      var x := sets[|sets| - 1];
      if x.value == [] then r else r[x.code := x.value]
  }

  /** `k` is the last setting of code `c` with a non-empty value. */
  ghost predicate LastSet(sets: seq<SubOption>, c: byte, k: nat) {
    && k < |sets| && sets[k].code == c && sets[k].value != []
    && forall j :: k < j < |sets| && sets[j].code == c ==> sets[j].value == []
  }

  ghost predicate NeverSet(sets: seq<SubOption>, c: byte) {
    forall j :: 0 <= j < |sets| && sets[j].code == c ==> sets[j].value == []
  }

  /** A setting with an encoding; an empty value is not set at all. */
  predicate Settable(x: SubOption) {
    x.value == [] || (1 <= x.code <= 254 && |x.value| <= 255)
  }

  predicate AllSettable(sets: seq<SubOption>) {
    forall k :: 0 <= k < |sets| ==> Settable(sets[k])
  }

  /** After any settings each code holds its last non-empty value. */
  lemma {:induction false} OverlayIsLast(m: Options, sets: seq<SubOption>, c: byte)
    ensures forall k: nat :: LastSet(sets, c, k) ==> c in Overlay(m, sets) && Overlay(m, sets)[c] == sets[k].value
    ensures NeverSet(sets, c) ==>
      (c in Overlay(m, sets) <==> c in m) && (c in m ==> Overlay(m, sets)[c] == m[c])
    decreases |sets|
  {
    if sets != [] {
      OverlayIsLast(m, sets[..|sets| - 1], c);
      forall k: nat | LastSet(sets, c, k)
        ensures c in Overlay(m, sets) && Overlay(m, sets)[c] == sets[k].value
      {
        LastOfFront(sets, c, k);
      }
      if NeverSet(sets, c) { NeverInFront(sets, c); }
    }
  }

  /** The last setting is the final one, or the last of those before, which the final one leaves alone. */
  lemma LastOfFront(sets: seq<SubOption>, c: byte, k: nat)
    requires LastSet(sets, c, k) && sets != []
    ensures k == |sets| - 1 || (LastSet(sets[..|sets| - 1], c, k) && Leaves(sets[|sets| - 1], c))
  {
  }

  predicate Leaves(x: SubOption, c: byte) { x.code == c ==> x.value == [] }

  lemma NeverInFront(sets: seq<SubOption>, c: byte)
    requires NeverSet(sets, c) && sets != []
    ensures NeverSet(sets[..|sets| - 1], c) && Leaves(sets[|sets| - 1], c)
  {
    var front := sets[..|sets| - 1];
    forall j | 0 <= j < |front| && front[j].code == c ensures front[j].value == [] {
      assert front[j] == sets[j];
    }
  }
}
