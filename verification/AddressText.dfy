/** The SSRF guard from the text of an address to its verdict. */
module AddressText {
  // apps/control-plane/src/common/net/ssrf-guard.ts: an address is a number, its texts are printed from
  // it, and the guard refuses a text exactly when the number lies in a refused range.

  import opened Text
  import opened Numerals
  import opened Address

  // ---- Printing an IPv6 address ----

  /** How eight 16-bit groups are written: the case of each digit of each group, the run of groups that
      `::` stands for, and the widths of the octets when the last two groups are a dotted quad. */
  datatype Style = Style(upper: seq<seq<bool>>, gap: Option<(nat, nat)>, quad: Option<seq<nat>>)

  predicate Words(h: seq<int>) {
    |h| == 8 && forall i :: 0 <= i < 8 ==> 0 <= h[i] < 0x1_0000
  }

  /** The groups that are written in hexadecimal. */
  function HexGroupCount(st: Style): nat {
    if st.quad.Some? then 6 else 8
  }

  function Octets(h: seq<int>): (r: seq<int>)
    requires Words(h)
    ensures |r| == 4 && Bytes(r)
  {
    [h[6] / 256, h[6] % 256, h[7] / 256, h[7] % 256]
  }

  predicate FitWidths(v: seq<int>, widths: seq<nat>)
    requires |v| == 4 && Bytes(v)
  {
    |widths| == 4 && forall k :: 0 <= k < 4 ==> 1 <= widths[k] <= 3 && v[k] < Pow(10, widths[k])
  }

  /** The style can write the address: one to four digits that are enough for each group, and a gap
      over zero groups only. */
  predicate Fits(h: seq<int>, st: Style)
    requires Words(h)
  {
    && |st.upper| == 8
    && (forall i :: 0 <= i < 8 ==> 1 <= |st.upper[i]| <= 4 && h[i] < Pow(16, |st.upper[i]|))
    && (st.quad.Some? ==> FitWidths(Octets(h), st.quad.value))
    && (st.gap.Some? ==>
          var (i, j) := st.gap.value;
          i < j <= HexGroupCount(st) && forall k :: i <= k < j ==> h[k] == 0)
  }

  function GroupTexts(h: seq<int>, st: Style, lo: nat, hi: nat): (r: seq<string>)
    requires Words(h) && Fits(h, st) && lo <= hi <= 8
    ensures |r| == hi - lo
    ensures forall k :: 0 <= k < hi - lo ==> r[k] == HexPrint(h[lo + k], st.upper[lo + k])
    ensures AllGroups(r)
  {
    seq(hi - lo, k requires 0 <= k < hi - lo => HexPrint(h[lo + k], st.upper[lo + k]))
  }

  function QuadTexts(v: seq<int>, widths: seq<nat>): (r: seq<string>)
    requires |v| == 4 && Bytes(v) && FitWidths(v, widths)
    ensures |r| == 4 && forall k :: 0 <= k < 4 ==> r[k] == DecPrint(v[k], widths[k])
  {
    seq(4, k requires 0 <= k < 4 => DecPrint(v[k], widths[k]))
  }

  function FormOf(h: seq<int>, st: Style): Form
    requires Words(h) && Fits(h, st)
  {
    var quad := if st.quad.Some? then Some(QuadTexts(Octets(h), st.quad.value)) else None;
    var m := HexGroupCount(st);
    match st.gap
    case None => Form(GroupTexts(h, st, 0, m), false, [], quad)
    case Some((i, j)) => Form(GroupTexts(h, st, 0, i), true, GroupTexts(h, st, j, m), quad)
  }

  function Print(h: seq<int>, st: Style): string
    requires Words(h) && Fits(h, st)
  {
    Render(FormOf(h, st))
  }

  /** The 128-bit number that eight groups make. */
  function Number(h: seq<int>): int {
    if h == [] then 0 else Number(h[..|h| - 1]) * 0x1_0000 + h[|h| - 1]
  }

  // ---- The printed text denotes the number ----

  lemma QuadTextsRead(v: seq<int>, widths: seq<nat>)
    requires |v| == 4 && Bytes(v) && FitWidths(v, widths)
    ensures AllOctets(QuadTexts(v, widths)) && Map(DecValue, QuadTexts(v, widths)) == v
  {
    hide DecValue, DecPrint, Pow;
    forall k | 0 <= k < 4
      ensures DecValue(QuadTexts(v, widths)[k]) == v[k]
    {
      DecValueUndoesPrint(v[k], widths[k]);
    }
  }

  lemma GroupTextsRead(h: seq<int>, st: Style, lo: nat, hi: nat)
    requires Words(h) && Fits(h, st) && lo <= hi <= 8
    ensures Map(HexValue, GroupTexts(h, st, lo, hi)) == h[lo..hi]
  {
    hide HexValue, HexPrint, Pow;
    forall k | 0 <= k < hi - lo
      ensures HexValue(GroupTexts(h, st, lo, hi)[k]) == h[lo + k]
    {
      HexValueUndoesPrint(h[lo + k], st.upper[lo + k]);
    }
  }

  lemma OctetsAreBytes(h: seq<int>)
    requires Words(h)
    ensures BytesOf(h[6..]) == Octets(h)
  {
    assert h[6..] == [h[6], h[7]];
    BytesOfPair(h[6], h[7]);
  }

  lemma FormFits(h: seq<int>, st: Style)
    requires Words(h) && Fits(h, st)
    ensures WellFormed(FormOf(h, st))
  {
    hide HexPrint, DecPrint, Pow, GroupTexts;
    if st.quad.Some? {
      QuadTextsRead(Octets(h), st.quad.value);
    }
  }

  lemma PrintDenotes(h: seq<int>, st: Style)
    requires Words(h) && Fits(h, st)
    ensures WellFormed(FormOf(h, st)) && Denote(FormOf(h, st)) == BytesOf(h)
  {
    hide HexValue, DecValue, HexPrint, DecPrint, Pow, BytesOf, GroupTexts, QuadTexts;
    FormFits(h, st);
    QuadPart(h, st);
    if st.gap.None? {
      PlainDenotes(h, st);
    } else {
      GapDenotes(h, st);
    }
  }

  /** The bytes of the groups that are written as a dotted quad. */
  lemma QuadPart(h: seq<int>, st: Style)
    requires Words(h) && Fits(h, st)
    ensures var quad := FormOf(h, st).quad;
            (if quad.Some? then Map(DecValue, quad.value) else []) == BytesOf(h[HexGroupCount(st)..])
  {
    hide DecValue, DecPrint, Pow, BytesOf, GroupTexts, QuadTexts;
    if st.quad.Some? {
      QuadTextsRead(Octets(h), st.quad.value);
      OctetsAreBytes(h);
    } else {
      EmptyBytes();
      assert h[8..] == [];
    }
  }

  lemma PlainDenotes(h: seq<int>, st: Style)
    requires Words(h) && Fits(h, st) && st.gap.None? && WellFormed(FormOf(h, st))
    requires var quad := FormOf(h, st).quad;
             (if quad.Some? then Map(DecValue, quad.value) else []) == BytesOf(h[HexGroupCount(st)..])
    ensures Denote(FormOf(h, st)) == BytesOf(h)
  {
    hide HexValue, DecValue, Pow, BytesOf, GroupTexts, QuadTexts, WellFormed;
    var m := HexGroupCount(st);
    GroupTextsRead(h, st, 0, m);
    BytesConcat(h[0..m], h[m..]);
    assert h == h[0..m] + h[m..];
  }

  lemma GapDenotes(h: seq<int>, st: Style)
    requires Words(h) && Fits(h, st) && st.gap.Some? && WellFormed(FormOf(h, st))
    requires var quad := FormOf(h, st).quad;
             (if quad.Some? then Map(DecValue, quad.value) else []) == BytesOf(h[HexGroupCount(st)..])
    ensures Denote(FormOf(h, st)) == BytesOf(h)
  {
    hide HexValue, DecValue, Pow, BytesOf, GroupTexts, QuadTexts, WellFormed;
    var m := HexGroupCount(st);
    var (i, j) := st.gap.value;
    GroupTextsRead(h, st, 0, i);
    GroupTextsRead(h, st, j, m);
    GapBytesConcat(h, i, j, m);
  }

  lemma EmptyBytes()
    ensures BytesOf([]) == []
  {
  }

  lemma GapBytesConcat(h: seq<int>, i: nat, j: nat, m: nat)
    requires Words(h) && i < j <= m <= 8 && forall k :: i <= k < j ==> h[k] == 0
    ensures BytesOf(h) == BytesOf(h[0..i]) + Zeros(2 * (j - i)) + BytesOf(h[j..m]) + BytesOf(h[m..])
  {
    hide BytesOf;
    assert h == h[0..i] + Zeros(j - i) + h[j..m] + h[m..];
    BytesConcat(h[0..i] + Zeros(j - i) + h[j..m], h[m..]);
    BytesConcat(h[0..i] + Zeros(j - i), h[j..m]);
    BytesConcat(h[0..i], Zeros(j - i));
    BytesOfZeros(j - i);
  }

  lemma {:induction false} NumOfBytes(h: seq<int>)
    requires forall i :: 0 <= i < |h| ==> 0 <= h[i] < 0x1_0000
    ensures Num(BytesOf(h)) == Number(h)
  {
    if h != [] {
      var n := |h| - 1;
      var high, x := BytesOf(h[..n]), h[n];
      NumOfBytes(h[..n]);
      assert h == h[..n] + [x];
      BytesConcat(h[..n], [x]);
      assert BytesOf([x]) == [x / 256, x % 256];
      NumOfTwoMore(high, x);
    }
  }

  lemma NumOfTwoMore(high: seq<int>, x: int)
    ensures Num(high + [x / 256, x % 256]) == Num(high) * 0x1_0000 + x
  {
    hide Num;
    var all := high + [x / 256, x % 256];
    assert all[..|high|] == high && all[..|high| + 2] == all;
    NumExtend(all, |high|);
    NumExtend(all, |high| + 1);
  }

  // ---- From text to verdict ----

  /** 0.0.0.0/8, 127.0.0.0/8 and 169.254.0.0/16. */
  ghost predicate LanRefusedIpv4(x: int) {
    InRange(x, 0, 0x100_0000) || InRange(x, 127, 0x100_0000) || InRange(x, 0xa9fe, 0x1_0000)
  }

  /** ::, ::1, fe80::/10, and the mapped block over `LanRefusedIpv4`. */
  ghost predicate LanRefusedIpv6(x: int) {
    || x == 0 || x == 1
    || (InRange(x, 0xffff, 0x1_0000_0000) && LanRefusedIpv4(x - 0xffff * 0x1_0000_0000))
    || InRange(x, 0x3fa, TWO_118)
  }

  /** Every dotted quad, with leading zeros or without, is refused by what number it is. */
  lemma Ipv4TextVerdict(v: seq<int>, widths: seq<nat>)
    requires |v| == 4 && Bytes(v) && FitWidths(v, widths)
    ensures var text := Join(QuadTexts(v, widths), '.');
            && (IsDisallowedIpv4(text) <==> RefusedIpv4(Num(v)))
            && (LanBlocksIpv4(text) <==> LanRefusedIpv4(Num(v)))
  {
    hide DecValue, DecPrint, Num, Join, ParseIpv4, QuadTexts;
    QuadTextsRead(v, widths);
    OctetsArePlain(QuadTexts(v, widths));
    Ipv4GuardIsRanges(v);
    LanIpv4IsRanges(v);
  }

  lemma LanIpv4IsRanges(v: seq<int>)
    requires |v| == 4 && Bytes(v)
    ensures (v[0] == 0 || v[0] == 127 || (v[0] == 169 && v[1] == 254)) <==> LanRefusedIpv4(Num(v))
  {
    hide Num;
    FourBytes(v);
  }

  lemma LanIpv6IsRanges(b: seq<int>)
    requires |b| == 16 && Bytes(b)
    ensures LanBlocksIpv6Bytes(b) <==> LanRefusedIpv6(Num(b))
  {
    hide And, Num, IsMapped, LanRefusedIpv4, Quad, ParseIpv4;
    LoopbackIsOne(b);
    LocalMasksAreRanges(b);
    MappedIsRange(b);
    ParseUndoesQuad(b[12..]);
    LanIpv4IsRanges(b[12..]);
  }

  /** Every text of an IPv6 address, with a scope id or without, is refused by what number it is. */
  lemma Ipv6TextVerdict(h: seq<int>, st: Style, zone: Option<string>, isIP: string -> int)
    requires Words(h) && Fits(h, st)
    ensures var text := Print(h, st) + if zone.Some? then "%" + zone.value else "";
            && (IsDisallowedIpv6(text) <==> RefusedIpv6(Number(h)))
            && (isIP(text) == 6 ==>
                  && (IsDisallowedAddress(text, isIP) <==> RefusedIpv6(Number(h)))
                  && (IsLoopbackOrLinkLocalAddress(text, isIP) <==> LanRefusedIpv6(Number(h))))
  {
    hide ExpandIpv6, Render, FormOf, Denote, BytesOf, Num, Number, RefusedIpv6, LanRefusedIpv6,
      IsDisallowedIpv6Bytes, LanBlocksIpv6Bytes, WellFormed, Fits;
    PrintDenotes(h, st);
    var f := FormOf(h, st);
    if zone.Some? {
      ZoneIsIgnored(f, zone.value);
      assert Render(f) + "%" + zone.value == Render(f) + ("%" + zone.value);
    } else {
      ExpandUndoesRender(f);
      assert Render(f) + "" == Render(f);
    }
    var text := Print(h, st) + if zone.Some? then "%" + zone.value else "";
    assert ExpandIpv6(text) == Some(BytesOf(h));
    BytesAreBytes(h);
    NumOfBytes(h);
    Ipv6GuardIsRanges(BytesOf(h));
    LanIpv6IsRanges(BytesOf(h));
  }

  // ---- What is no address ----

  /** The parser accepts exactly the dotted quads printed from four bytes, in one to three digits
      each. */
  lemma ParseExactly(ip: string, v: seq<int>)
    ensures ParseIpv4(ip) == Some(v) <==>
            (&& |v| == 4 && Bytes(v)
             && exists widths :: FitWidths(v, widths) && ip == Join(QuadTexts(v, widths), '.'))
  {
    hide DecValue, DecPrint, Join, Pow;
    if ParseIpv4(ip) == Some(v) {
      var parts := Split(ip, '.');
      var widths := Map((p: string) => |p|, parts);
      JoinSplit(ip, '.');
      forall k | 0 <= k < 4
        ensures v[k] < Pow(10, widths[k]) && DecPrint(v[k], widths[k]) == parts[k]
      {
        DecPrintUndoesValue(parts[k]);
      }
      assert FitWidths(v, widths) && QuadTexts(v, widths) == parts;
    }
    if |v| == 4 && Bytes(v) {
      if widths :| FitWidths(v, widths) && ip == Join(QuadTexts(v, widths), '.') {
        QuadTextsRead(v, widths);
        OctetsArePlain(QuadTexts(v, widths));
      }
    }
  }

  /** A group without a dot is accepted exactly when it prints a 16-bit number in one to four hexadecimal
      digits, and stands for that number. */
  lemma GroupExactly(g: string, n: int)
    requires '.' !in g
    ensures Hextets(g) == Some([n]) <==>
            (0 <= n && exists upper :: 1 <= |upper| <= 4 && n < Pow(16, |upper|) && g == HexPrint(n, upper))
    ensures Hextets(g).Some? ==> |Hextets(g).value| == 1
  {
    hide HexValue, HexPrint, Pow;
    if Hextets(g) == Some([n]) {
      var upper := HexPrintUndoesValue(g);
      assert n < Pow(16, |upper|) && g == HexPrint(n, upper);
    }
    if 0 <= n {
      if upper :| 1 <= |upper| <= 4 && n < Pow(16, |upper|) && g == HexPrint(n, upper) {
        HexValueUndoesPrint(n, upper);
      }
    }
  }
}
