/**
 The shell function that reads the traceparent back out of option 43, given as the
 hex string a DHCP client reports. Offsets count characters from 1, as cut(1) does.
 */
module HexScanner {
  import opened Bytes
  import opened Option43

  const TRACEPARENT_CODE: byte := 69

  function DigitValue(c: char): int {
    if '0' <= c <= '9' then c as int - '0' as int
    else if 'a' <= c <= 'f' then c as int - 'a' as int + 10
    else if 'A' <= c <= 'F' then c as int - 'A' as int + 10
    else -1
  }

  /** printf '%d' "0x$(cut -c o-(o+1))": the value of the leading hex digits of the
      characters o and o + 1 that exist, 0 without any. */
  function PairValue(h: string, o: nat): nat
    requires o >= 1
  {
    if |h| < o || DigitValue(h[o - 1]) < 0 then 0
    else if |h| == o || DigitValue(h[o]) < 0 then DigitValue(h[o - 1])
    else DigitValue(h[o - 1]) * 16 + DigitValue(h[o])
  }

  /** cut -c "a-b": characters a to b, as many as there are. */
  function Cut(s: string, a: nat, b: int): string
    requires a >= 1
  {
    var hi := if b < |s| then b else |s|;
    if a - 1 >= hi then "" else s[a - 1..hi]
  }

  /** [ "$(cut -c o-(o+1))" = "ff" ] */
  predicate PairIsFF(h: string, o: nat)
    requires o >= 1
  {
    o < |h| && h[o - 1] == 'f' && h[o] == 'f'
  }

  datatype Found = Found(opt43x69: string, traceparent: string)

  /** The W3C form of the sub-option's hex data. */
  function Traceparent(hex: string): string {
    Cut(hex, 1, 2) + "-" + Cut(hex, 3, 34) + "-" + Cut(hex, 35, 50) + "-" + Cut(hex, 51, 53)
  }

  /** One turn of the loop at character `offset`. */
  datatype Turn = Turn(typ: nat, value: string, next: nat, last: bool)

  function TurnAt(h: string, offset: nat): (t: Turn)
    requires offset >= 1
    ensures t.next >= offset + 4
  {
    var len := PairValue(h, offset + 2);
    var bov := offset + 4;
    var next := 4 + offset + len * 2;
    Turn(PairValue(h, offset), Cut(h, bov, bov + len * 2 - 1), next, PairIsFF(h, next))
  }

  function Noted(t: Turn, f: Found): Found {
    if t.typ == TRACEPARENT_CODE then Found(t.value, Traceparent(t.value)) else f
  }

  // ---- hex reports --------------------------------------------------------

  /** How a client spells a byte: its two digits. */
  datatype Spelling = Spelling(hi: byte -> char, lo: byte -> char)

  /** The digits name the byte, and only 0xff is spelled "ff". */
  ghost predicate Readable(sp: Spelling) {
    forall x: byte ::
      && DigitValue(sp.hi(x)) >= 0 && DigitValue(sp.lo(x)) >= 0
      && DigitValue(sp.hi(x)) * 16 + DigitValue(sp.lo(x)) == x
      && (sp.hi(x) == 'f' && sp.lo(x) == 'f' <==> x == END)
  }

  ghost predicate SpelledAt(h: string, b: seq<byte>, i: int, sp: Spelling) {
    0 <= i < |b| && 2 * i + 1 < |h| && h[2 * i] == sp.hi(b[i]) && h[2 * i + 1] == sp.lo(b[i])
  }

  /** `h` is the report of the bytes `b`. */
  ghost predicate Reports(h: string, b: seq<byte>, sp: Spelling) {
    |h| == 2 * |b| && forall i :: 0 <= i < |b| ==> SpelledAt(h, b, i, sp)
  }

  /** udhcpc reports in lower case. */
  function LowerCase(): Spelling {
    Spelling((x: byte) => HexDigit(x / 16), (x: byte) => HexDigit(x % 16))
  }

  lemma LowerCaseReadable()
    ensures Readable(LowerCase())
  {
    forall x: byte
      ensures DigitValue(LowerCase().hi(x)) == x / 16 && DigitValue(LowerCase().lo(x)) == x % 16
      ensures LowerCase().hi(x) == 'f' && LowerCase().lo(x) == 'f' <==> x == END
    {
    }
  }

  /** The report of `b`. */
  ghost function Hex(b: seq<byte>, sp: Spelling): (h: string)
    ensures |h| == 2 * |b|
  {
    if b == [] then "" else Hex(b[..|b| - 1], sp) + [sp.hi(b[|b| - 1]), sp.lo(b[|b| - 1])]
  }

  /** A report of bytes is their hex text and no other. */
  lemma {:induction false} ReportsIsHex(h: string, b: seq<byte>, sp: Spelling)
    requires Reports(h, b, sp)
    ensures h == Hex(b, sp)
    decreases |b|
  {
    if b != [] {
      var n := |b| - 1;
      var h', b' := h[..2 * n], b[..n];
      forall i | 0 <= i < n ensures SpelledAt(h', b', i, sp) { assert SpelledAt(h, b, i, sp); }
      ReportsIsHex(h', b', sp);
      assert SpelledAt(h, b, n, sp);
      assert h == h' + [h[2 * n], h[2 * n + 1]];
    }
  }

  /** Digits of a byte below ten are decimal ones in every spelling. */
  lemma SmallHex(x: byte, sp: Spelling)
    requires Readable(sp) && x < 10
    ensures Hex([x], sp) == ['0', '0' + x as char]
  {
    assert DigitValue(sp.hi(x)) == 0 && DigitValue(sp.lo(x)) == x;
    assert sp.hi(x) == '0' && sp.lo(x) == '0' + x as char;
    assert [x][..0] == [];
    assert Hex([x], sp) == Hex([], sp) + [sp.hi(x), sp.lo(x)];
  }

  /** Reports cut at byte boundaries. */
  lemma ReportsCut(h: string, b: seq<byte>, i: nat, j: nat, from: nat, to: nat, sp: Spelling)
    requires Reports(h, b, sp) && i <= j <= |b| && from == 2 * i + 1 && to == 2 * j
    ensures Reports(Cut(h, from, to), b[i..j], sp)
  {
    var x, y := Cut(h, from, to), b[i..j];
    assert x == h[2 * i..2 * j];
    forall k | 0 <= k < |y| ensures SpelledAt(x, y, k, sp) {
      assert SpelledAt(h, b, i + k, sp);
    }
  }

  lemma ByteAt(h: string, b: seq<byte>, i: nat, o: nat, sp: Spelling)
    requires Reports(h, b, sp) && Readable(sp) && i < |b| && o == 2 * i + 1
    ensures PairValue(h, o) == b[i]
    ensures PairIsFF(h, o) <==> b[i] == END
  {
    assert SpelledAt(h, b, i, sp);
  }

  /** A turn at the start of a sub-option reads that sub-option. */
  lemma TurnAtSubOption(h: string, b: seq<byte>, at: nat, v: seq<byte>, next: nat, sp: Spelling) returns (t: Turn)
    requires Reports(h, b, sp) && Readable(sp) && next == at + 2 + |v| < |b|
    requires b[at + 1] == |v| && b[at + 2..next] == v
    ensures t == TurnAt(h, 2 * at + 1) && t.typ == b[at] && Reports(t.value, v, sp)
    ensures t.next == 2 * next + 1 && (t.last <==> b[next] == END)
  {
    var o, n := 2 * at + 1, |v|;
    var typ, last := TypeAndEnd(h, b, at, next, o, o + 4 + 2 * n, sp);
    LengthAt(h, b, at, o, n, sp);
    ValueAt(h, b, at, v, next, o, sp);
    TurnIs(h, o, n);
    t := Turn(typ, Cut(h, o + 4, o + 3 + 2 * n), o + 4 + 2 * n, last);
  }

  lemma TypeAndEnd(h: string, b: seq<byte>, at: nat, next: nat, o: nat, o': nat, sp: Spelling) returns (typ: nat, last: bool)
    requires Reports(h, b, sp) && Readable(sp) && at < next < |b| && o == 2 * at + 1 && o' == 2 * next + 1
    ensures typ == b[at] == PairValue(h, o) && last == PairIsFF(h, o') == (b[next] == END)
  {
    ByteAt(h, b, at, o, sp);
    ByteAt(h, b, next, o', sp);
    typ, last := b[at], b[next] == END;
  }

  lemma ValueAt(h: string, b: seq<byte>, at: nat, v: seq<byte>, next: nat, o: nat, sp: Spelling)
    requires Reports(h, b, sp) && next == at + 2 + |v| < |b| && b[at + 2..next] == v && o == 2 * at + 1
    ensures Reports(Cut(h, o + 4, o + 3 + 2 * |v|), v, sp)
  {
    ReportsCut(h, b, at + 2, next, o + 4, o + 3 + 2 * |v|, sp);
  }

  lemma LengthAt(h: string, b: seq<byte>, at: nat, o: nat, n: nat, sp: Spelling)
    requires Reports(h, b, sp) && Readable(sp) && at + 1 < |b| && b[at + 1] == n && o == 2 * at + 1
    ensures PairValue(h, o + 2) == n
  {
    ByteAt(h, b, at + 1, o + 2, sp);
  }

  lemma TurnIs(h: string, o: nat, n: nat)
    requires o >= 1 && PairValue(h, o + 2) == n
    ensures TurnAt(h, o) == Turn(PairValue(h, o), Cut(h, o + 4, o + 3 + 2 * n), o + 4 + 2 * n, PairIsFF(h, o + 4 + 2 * n))
  {
  }

  /** What is found when the first `k` sub-options of `order` are read, starting from `f0`. */
  ghost predicate Finds(f: Found, order: seq<byte>, k: nat, m: Options, f0: Found, sp: Spelling) {
    if Among(TRACEPARENT_CODE, order, k) && TRACEPARENT_CODE in m
    then Reports(f.opt43x69, m[TRACEPARENT_CODE], sp) && f.traceparent == Traceparent(f.opt43x69)
    else f == f0
  }

  /** `c` is one of the first `k` codes. */
  predicate Among(c: byte, order: seq<byte>, k: nat) {
    k > 0 && ((k <= |order| && order[k - 1] == c) || Among(c, order, k - 1))
  }

  lemma {:induction false} AmongAll(c: byte, order: seq<byte>, k: nat)
    requires k <= |order|
    ensures Among(c, order, k) <==> c in order[..k]
  {
    if k > 0 {
      AmongAll(c, order, k - 1);
      assert order[..k] == order[..k - 1] + [order[k - 1]];
    }
  }

  /** `h` reports an encoding of `m` in the given order. */
  ghost predicate ReportsOption43(h: string, b: seq<byte>, order: seq<byte>, m: Options, sp: Spelling) {
    Encodable(m) && Lists(order, m) && b == Encode(order, m) && Reports(h, b, sp) && Readable(sp)
  }

  lemma NotedFinds(order: seq<byte>, k: nat, m: Options, f0: Found, f: Found, t: Turn, sp: Spelling)
    requires k < |order| && order[k] in m && Finds(f, order, k, m, f0, sp)
    requires t.typ == order[k] && Reports(t.value, m[order[k]], sp)
    ensures Finds(Noted(t, f), order, k + 1, m, f0, sp)
  {
  }

  /** From byte `at` on, `b` holds the sub-options of `order` from the k-th on. */
  ghost predicate EncodedFrom(b: seq<byte>, at: nat, order: seq<byte>, k: nat, m: Options)
    requires k <= |order|
    decreases |order| - k
  {
    if k == |order| then at + 1 == |b| && b[at] == END
    else
      && order[k] in m && order[k] != END && at + 2 + |m[order[k]]| < |b|
      && b[at] == order[k] && b[at + 1] == |m[order[k]]| && b[at + 2..at + 2 + |m[order[k]]|] == m[order[k]]
      && EncodedFrom(b, at + 2 + |m[order[k]]|, order, k + 1, m)
  }

  predicate AllIn(order: seq<byte>, m: Options) {
    forall k :: 0 <= k < |order| ==> order[k] in m
  }

  lemma TlvInside(pre: seq<byte>, c: byte, v: seq<byte>, rest: seq<byte>, b: seq<byte>)
    requires |v| <= 255 && b == pre + (Tlv(c, v) + rest) && rest != []
    ensures b == pre + Tlv(c, v) + rest && |pre| + 2 + |v| < |b|
    ensures b[|pre|] == c && b[|pre| + 1] == |v| && b[|pre| + 2..|pre| + 2 + |v|] == v
  {
  }

  lemma {:induction false} EncodeIsEncodedFrom(b: seq<byte>, pre: seq<byte>, order: seq<byte>, k: nat, m: Options)
    requires Encodable(m) && AllIn(order, m) && k <= |order| && b == pre + Encode(order[k..], m)
    ensures EncodedFrom(b, |pre|, order, k, m)
    decreases |order| - k
  {
    if k < |order| {
      var c, v, rest := order[k], m[order[k]], Encode(order[k + 1..], m);
      EncodeStep(order, k, m);
      TlvInside(pre, c, v, rest, b);
      EncodeIsEncodedFrom(b, pre + Tlv(c, v), order, k + 1, m);
      EncodedMore(b, |pre|, order, k, m, |pre + Tlv(c, v)|);
    }
  }

  lemma EncodeStep(order: seq<byte>, k: nat, m: Options)
    requires Encodable(m) && AllIn(order, m) && k < |order|
    ensures Encode(order[k..], m) == Tlv(order[k], m[order[k]]) + Encode(order[k + 1..], m)
  {
    assert order[k..][0] == order[k] && order[k..][1..] == order[k + 1..];
  }

  lemma EncodedMore(b: seq<byte>, at: nat, order: seq<byte>, k: nat, m: Options, at': nat)
    requires k < |order| && order[k] in m && order[k] != END && at' == at + 2 + |m[order[k]]| < |b|
    requires b[at] == order[k] && b[at + 1] == |m[order[k]]| && b[at + 2..at'] == m[order[k]]
    requires EncodedFrom(b, at', order, k + 1, m)
    ensures EncodedFrom(b, at, order, k, m)
  {
  }

  /** The scan is at the k-th sub-option, with those before it noted; or the list is
      empty and the one turn over its end mark may be over. */
  ghost predicate Scanning(h: string, offset: nat, f: Found, at: nat, k: nat,
                           b: seq<byte>, order: seq<byte>, m: Options, f0: Found, sp: Spelling)
  {
    && Reports(h, b, sp) && Readable(sp)
    && if order == [] then EncodedFrom(b, 0, order, 0, m) && f == f0 && (offset == 1 || offset >= |h|)
       else k < |order| && EncodedFrom(b, at, order, k, m) && offset == 2 * at + 1
            && Finds(f, order, k, m, f0, sp)
  }

  lemma EmptyTurn(h: string, b: seq<byte>, m: Options, sp: Spelling)
    requires Reports(h, b, sp) && Readable(sp) && EncodedFrom(b, 0, [], 0, m)
    ensures var t := TurnAt(h, 1); t.typ == END && !t.last && t.next >= |h|
  {
    ByteAt(h, b, 0, 1, sp);
  }

  lemma AdvanceOne(h: string, f: Found, at: nat, k: nat,
                   b: seq<byte>, order: seq<byte>, m: Options, f0: Found, sp: Spelling)
      returns (t: Turn, at': nat)
    requires Reports(h, b, sp) && Readable(sp)
    requires k < |order| && EncodedFrom(b, at, order, k, m) && Finds(f, order, k, m, f0, sp)
    ensures t == TurnAt(h, 2 * at + 1) && t.next == 2 * at' + 1
    ensures Finds(Noted(t, f), order, k + 1, m, f0, sp)
    ensures EncodedFrom(b, at', order, k + 1, m) && (t.last <==> k + 1 == |order|)
  {
    var v;
    at', v := EncodedHere(b, at, order, k, m);
    t := ReadOne(h, f, at, at', v, k, b, order, m, f0, sp);
  }

  /** One turn at a sub-option of value `v` that ends before byte `at'`. */
  lemma ReadOne(h: string, f: Found, at: nat, at': nat, v: seq<byte>, k: nat,
                b: seq<byte>, order: seq<byte>, m: Options, f0: Found, sp: Spelling)
      returns (t: Turn)
    requires Reports(h, b, sp) && Readable(sp) && at' == at + 2 + |v| < |b|
    requires k < |order| && order[k] in m && m[order[k]] == v && Finds(f, order, k, m, f0, sp)
    requires b[at] == order[k] && b[at + 1] == |v| && b[at + 2..at'] == v
    ensures t == TurnAt(h, 2 * at + 1) && t.next == 2 * at' + 1 && (t.last <==> b[at'] == END)
    ensures Finds(Noted(t, f), order, k + 1, m, f0, sp)
  {
    t := TurnAtSubOption(h, b, at, v, at', sp);
    NotedFinds(order, k, m, f0, f, t, sp);
  }

  /** The sub-option at byte `at`, and where the next begins. */
  lemma EncodedHere(b: seq<byte>, at: nat, order: seq<byte>, k: nat, m: Options)
      returns (at': nat, v: seq<byte>)
    requires k < |order| && EncodedFrom(b, at, order, k, m)
    ensures order[k] in m && v == m[order[k]] && at' == at + 2 + |v| < |b|
    ensures b[at] == order[k] && b[at + 1] == |v| && b[at + 2..at'] == v
    ensures EncodedFrom(b, at', order, k + 1, m) && (b[at'] == END <==> k + 1 == |order|)
  {
    v := m[order[k]];
    at' := at + 2 + |v|;
  }

  lemma AdvanceEmpty(h: string, offset: nat, f: Found, at: nat, k: nat,
                     b: seq<byte>, m: Options, f0: Found, sp: Spelling)
      returns (t: Turn)
    requires Scanning(h, offset, f, at, k, b, [], m, f0, sp) && 1 <= offset < |h|
    ensures t == TurnAt(h, offset) && !t.last && Scanning(h, t.next, Noted(t, f), 0, k + 1, b, [], m, f0, sp)
  {
    EmptyTurn(h, b, m, sp);
    t := TurnAt(h, offset);
  }

  lemma Advance(h: string, offset: nat, f: Found, at: nat, k: nat,
                b: seq<byte>, order: seq<byte>, m: Options, f0: Found, sp: Spelling)
      returns (t: Turn, at': nat)
    requires Scanning(h, offset, f, at, k, b, order, m, f0, sp) && 1 <= offset < |h|
    ensures t == TurnAt(h, offset)
    ensures t.last ==> Finds(Noted(t, f), order, |order|, m, f0, sp)
    ensures !t.last ==> Scanning(h, t.next, Noted(t, f), at', k + 1, b, order, m, f0, sp)
  {
    if order == [] {
      at' := 0;
      t := AdvanceEmpty(h, offset, f, at, k, b, m, f0, sp);
    } else {
      t, at' := AdvanceOne(h, f, at, k, b, order, m, f0, sp);
    }
  }

  lemma ScanStarts(h: string, b: seq<byte>, order: seq<byte>, m: Options, f0: Found, sp: Spelling)
    requires ReportsOption43(h, b, order, m, sp)
    ensures Scanning(h, 1, f0, 0, 0, b, order, m, f0, sp)
  {
    assert order[0..] == order && b == [] + b;
    EncodeIsEncodedFrom(b, [], order, 0, m);
  }

  /** A scan that runs off the end has found what there is to find. */
  lemma ScanEnds(h: string, offset: nat, f: Found, at: nat, k: nat,
                 b: seq<byte>, order: seq<byte>, m: Options, f0: Found, sp: Spelling)
    requires Scanning(h, offset, f, at, k, b, order, m, f0, sp) && offset >= |h|
    ensures Finds(f, order, |order|, m, f0, sp)
  {
  }

  /** The scan. It ends on every input; on the report of an encoding, for every order of
      the sub-options and every content of the others, it finds exactly the value of
      sub-option 69, and without one leaves `inherited`, the TRACEPARENT exported before. */
  method ExtractTraceparent(hexdata: string, inherited: string,
                            ghost b: seq<byte>, ghost order: seq<byte>, ghost m: Options, ghost sp: Spelling)
      returns (f: Found)
    ensures ReportsOption43(hexdata, b, order, m, sp) ==> Finds(f, order, |order|, m, Found("", inherited), sp)
  {
    f := Found("", inherited);
    var offset := 1;
    ghost var f0, at: nat, k: nat := f, 0, 0;
    ghost var valid := ReportsOption43(hexdata, b, order, m, sp);
    if valid { ScanStarts(hexdata, b, order, m, f0, sp); }
    while offset < |hexdata|
      invariant offset >= 1
      invariant valid ==> Scanning(hexdata, offset, f, at, k, b, order, m, f0, sp)
    {
      var t := TurnAt(hexdata, offset);
      ghost var t' := t;
      if valid { t', at := Advance(hexdata, offset, f, at, k, b, order, m, f0, sp); }
      f := Noted(t, f);
      offset := t.next;
      k := k + 1;
      if t.last { return; }
    }
    if valid { ScanEnds(hexdata, offset, f, at, k, b, order, m, f0, sp); }
  }

  // ---- the traceparent ----------------------------------------------------

  datatype Span = Span(traceId: seq<byte>, spanId: seq<byte>, sampled: bool)

  predicate ValidSpan(s: Span) { |s.traceId| == 16 && |s.spanId| == 8 }

  /** The 26 bytes that carry a span. */
  ghost predicate CarriesSpan(tp: seq<byte>, s: Span) {
    && |tp| == 26 && tp[0] == 0 && tp[1..17] == s.traceId && tp[17..25] == s.spanId
    && tp[25] == if s.sampled then 1 else 0
  }

  method BinaryTraceparent(s: Span) returns (b: seq<byte>)
    requires ValidSpan(s)
    ensures CarriesSpan(b, s)
  {
    b := [];
    b := b + [0];
    b := b + s.traceId;
    b := b + s.spanId;
    if s.sampled { b := b + [1]; } else { b := b + [0]; }
  }

  /** The W3C form of a span: version 00, trace id, span id, and 01 for a sampled one. */
  ghost function W3C(s: Span, sp: Spelling): string {
    "00" + "-" + Hex(s.traceId, sp) + "-" + Hex(s.spanId, sp) + "-" + (if s.sampled then "01" else "00")
  }

  lemma CutIsHex(hex: string, tp: seq<byte>, i: nat, j: nat, sp: Spelling)
    requires Reports(hex, tp, sp) && i <= j <= |tp|
    ensures Cut(hex, 2 * i + 1, 2 * j) == Hex(tp[i..j], sp)
  {
    ReportsCut(hex, tp, i, j, 2 * i + 1, 2 * j, sp);
    ReportsIsHex(Cut(hex, 2 * i + 1, 2 * j), tp[i..j], sp);
  }

  lemma ByteText(hex: string, tp: seq<byte>, i: nat, sp: Spelling)
    requires Reports(hex, tp, sp) && Readable(sp) && i < |tp| && tp[i] < 10
    ensures Cut(hex, 2 * i + 1, 2 * (i + 1)) == ['0', '0' + tp[i] as char]
  {
    CutIsHex(hex, tp, i, i + 1, sp);
    assert tp[i..i + 1] == [tp[i]];
    SmallHex(tp[i], sp);
  }

  /** What was written is what is read: version, trace id, span id and flags. */
  lemma TraceparentRecovered(hex: string, tp: seq<byte>, s: Span, sp: Spelling)
    requires CarriesSpan(tp, s) && Reports(hex, tp, sp) && Readable(sp)
    ensures Traceparent(hex) == W3C(s, sp)
  {
    assert Cut(hex, 1, 2) == "00" by { ByteText(hex, tp, 0, sp); }
    assert Cut(hex, 3, 34) == Hex(s.traceId, sp) by { CutIsHex(hex, tp, 1, 17, sp); }
    assert Cut(hex, 35, 50) == Hex(s.spanId, sp) by { CutIsHex(hex, tp, 17, 25, sp); }
    assert Cut(hex, 51, 53) == (if s.sampled then "01" else "00") by {
      assert Cut(hex, 51, 53) == Cut(hex, 51, 52);
      ByteText(hex, tp, 25, sp);
    }
  }
}
