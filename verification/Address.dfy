/** IP literals and the ranges the SSRF guard refuses:
    apps/control-plane/src/common/net/ssrf-guard.ts. Bytes are integers in 0..255. */
module Address {
  import opened Text
  import opened Numerals

  // ---- Parsing ----

  predicate OctetText(p: string) {
    1 <= |p| <= 3 && AllDigits(p) && DecValue(p) <= 255
  }

  predicate GroupText(g: string) {
    1 <= |g| <= 4 && AllHex(g)
  }

  predicate Bytes(b: seq<int>) {
    forall i :: 0 <= i < |b| ==> 0 <= b[i] <= 255
  }

  predicate AllOctets(parts: seq<string>) {
    forall i :: 0 <= i < |parts| ==> OctetText(parts[i])
  }

  predicate AllGroups(gs: seq<string>) {
    forall i :: 0 <= i < |gs| ==> GroupText(gs[i])
  }

  function ParseIpv4(ip: string): (r: Option<seq<int>>)
    ensures r.Some? ==> |r.value| == 4 && Bytes(r.value)
  {
    var parts := Split(ip, '.');
    if |parts| == 4 && AllOctets(parts) then Some(Map(DecValue, parts)) else None
  }

  method ParseIpv4Loop(ip: string) returns (r: Option<seq<int>>)
    ensures r == ParseIpv4(ip)
  {
    var parts := Split(ip, '.');
    if |parts| != 4 {
      return None;
    }
    var out: seq<int> := [];
    for i := 0 to |parts|
      invariant AllOctets(parts[..i]) && out == Map(DecValue, parts[..i])
    {
      var p := parts[i];
      if !(1 <= |p| <= 3 && AllDigits(p)) {
        return None;
      }
      var n := DecValue(p);
      if n < 0 || n > 255 {
        return None;
      }
      out := out + [n];
      assert parts[..i + 1] == parts[..i] + [p];
      MapConcat(DecValue, parts[..i], [p]);
      assert Map(DecValue, [p]) == [n];
    }
    assert parts[..4] == parts;
    r := Some(out);
  }

  /** One colon-separated group: a dotted quad stands for two 16-bit groups. The source's
      `(x << 8) | y` on bytes is 256 x + y. */
  function Hextets(g: string): Option<seq<int>> {
    if '.' in g then
      match ParseIpv4(g)
      case None => None
      case Some(v) => Some([v[0] * 256 + v[1], v[2] * 256 + v[3]])
    else if GroupText(g) then Some([HexValue(g)])
    else None
  }

  function AllHextets(groups: seq<string>): Option<seq<int>> {
    if groups == [] then Some([])
    else
      var first := Hextets(groups[0]);
      if first.None? then None else Prefixed(first.value, AllHextets(groups[1..]))
  }

  function Prefixed(a: seq<int>, r: Option<seq<int>>): Option<seq<int>> {
    if r.None? then None else Some(a + r.value)
  }

  function PartHextets(part: string): Option<seq<int>> {
    if part == "" then Some([]) else AllHextets(Split(part, ':'))
  }

  /** `split('::')` */
  function SplitDouble(s: string): (r: seq<string>)
    ensures |r| >= 1
    decreases |s|
  {
    var i := IndexOfSub(s, "::");
    if i < 0 then [s] else [s[..i]] + SplitDouble(s[i + 2..])
  }

  function Zeros(n: nat): (r: seq<int>)
    ensures |r| == n && forall i :: 0 <= i < n ==> r[i] == 0
  {
    seq(n, _ => 0)
  }

  /** High byte, then low byte, of each 16-bit group: `(h >> 8) & 0xff` and `h & 0xff`. */
  function BytesOf(hextets: seq<int>): (r: seq<int>)
    ensures |r| == 2 * |hextets|
  {
    if hextets == [] then [] else [hextets[0] / 256 % 256, hextets[0] % 256] + BytesOf(hextets[1..])
  }

  function WithoutZone(ip: string): string {
    var zone := IndexOf(ip, '%');
    if zone >= 0 then ip[..zone] else ip
  }

  function ExpandIpv6(ip: string): Option<seq<int>> {
    ExpandHalves(SplitDouble(WithoutZone(ip)))
  }

  function ExpandHalves(halves: seq<string>): Option<seq<int>>
    requires |halves| >= 1
  {
    if |halves| > 2 then None
    else if |halves| == 1 then EightGroups(PartHextets(halves[0]))
    else FillGap(PartHextets(halves[0]), PartHextets(halves[1]))
  }

  function EightGroups(full: Option<seq<int>>): Option<seq<int>> {
    if full.None? || |full.value| != 8 then None else Some(BytesOf(full.value))
  }

  function FillGap(head: Option<seq<int>>, tail: Option<seq<int>>): Option<seq<int>> {
    if head.None? || tail.None? then None
    else
      var missing := 8 - |head.value| - |tail.value|;
      if missing < 0 then None else EightGroups(Some(head.value + Zeros(missing) + tail.value))
  }

  /** The loop body: the 16-bit groups one text group pushes. */
  method PushGroup(g: string) returns (r: Option<seq<int>>)
    ensures r == Hextets(g)
  {
    if '.' in g {
      var v4 := ParseIpv4Loop(g);
      if v4.None? {
        return None;
      }
      return Some([v4.value[0] * 256 + v4.value[1], v4.value[2] * 256 + v4.value[3]]);
    }
    if |g| == 0 || |g| > 4 || !AllHex(g) {
      return None;
    }
    r := Some([HexValue(g)]);
  }

  method PartHextetsLoop(part: string) returns (r: Option<seq<int>>)
    ensures r == PartHextets(part)
  {
    if part == "" {
      return Some([]);
    }
    var out: seq<int> := [];
    var groups := Split(part, ':');
    assert groups[0..] == groups;
    PrefixedNil(AllHextets(groups));
    for i := 0 to |groups|
      invariant AllHextets(groups) == Prefixed(out, AllHextets(groups[i..]))
    {
      var g := groups[i];
      assert groups[i..][1..] == groups[i + 1..];
      PrefixedTwice(out, Hextets(g), AllHextets(groups[i + 1..]));
      var two := PushGroup(g);
      if two.None? {
        return None;
      }
      out := out + two.value;
    }
    assert out + [] == out;
    r := Some(out);
  }

  lemma PrefixedNil(r: Option<seq<int>>)
    ensures Prefixed([], r) == r
  {
    if r.Some? {
      assert [] + r.value == r.value;
    }
  }

  lemma PrefixedTwice(a: seq<int>, b: Option<seq<int>>, r: Option<seq<int>>)
    ensures b.Some? ==> Prefixed(a, Prefixed(b.value, r)) == Prefixed(a + b.value, r)
  {
    if b.Some? && r.Some? {
      assert a + (b.value + r.value) == a + b.value + r.value;
    }
  }

  method BytesLoop(full: seq<int>) returns (bytes: seq<int>)
    ensures bytes == BytesOf(full)
  {
    bytes := [];
    for i := 0 to |full|
      invariant bytes == BytesOf(full[..i])
    {
      assert full[..i + 1] == full[..i] + [full[i]];
      BytesConcat(full[..i], [full[i]]);
      bytes := bytes + [full[i] / 256 % 256, full[i] % 256];
    }
    assert full[..|full|] == full;
  }

  method ExpandIpv6Loop(ip: string) returns (r: Option<seq<int>>)
    ensures r == ExpandIpv6(ip)
  {
    var halves := SplitDouble(WithoutZone(ip));
    if |halves| > 2 {
      return None;
    }
    var head := PartHextetsLoop(halves[0]);
    var tail := Some([]);
    if |halves| == 2 {
      tail := PartHextetsLoop(halves[1]);
    }
    if head.None? || tail.None? {
      return None;
    }
    var full := head.value;
    if |halves| == 2 {
      var missing := 8 - |head.value| - |tail.value|;
      if missing < 0 {
        return None;
      }
      full := head.value + Zeros(missing) + tail.value;
    }
    if |full| != 8 {
      return None;
    }
    var bytes := BytesLoop(full);
    r := Some(bytes);
  }

  // ---- The text forms of section 2.2 of RFC 4291 ----

  /** Groups of one to four hex digits before and after an optional `::`, and an optional dotted
      quad for the last 32 bits. */
  datatype Form = Form(head: seq<string>, gap: bool, tail: seq<string>, quad: Option<seq<string>>)

  predicate WellFormed(f: Form) {
    && AllGroups(f.head) && AllGroups(f.tail)
    && (f.quad.Some? ==> |f.quad.value| == 4 && AllOctets(f.quad.value))
    && var groups := |f.head| + |f.tail| + if f.quad.Some? then 2 else 0;
       if f.gap then groups <= 7 else groups == 8 && f.tail == []
  }

  function Groups(gs: seq<string>, quad: Option<seq<string>>): seq<string> {
    gs + if quad.Some? then [Join(quad.value, '.')] else []
  }

  function Render(f: Form): string {
    if f.gap then Join(f.head, ':') + "::" + Join(Groups(f.tail, f.quad), ':')
    else Join(Groups(f.head, f.quad), ':')
  }

  /** The address a form denotes, most significant byte first. */
  function Denote(f: Form): seq<int>
    requires WellFormed(f)
  {
    var quad := if f.quad.Some? then Map(DecValue, f.quad.value) else [];
    if f.gap then
      var n := 16 - 2 * |f.head| - 2 * |f.tail| - |quad|;
      BytesOf(Map(HexValue, f.head)) + Zeros(n) + BytesOf(Map(HexValue, f.tail)) + quad
    else
      BytesOf(Map(HexValue, f.head)) + quad
  }

  // ---- Expansion is a left inverse of every text form ----

  /** No two colons in a row, and none at either end. */
  ghost predicate SingleColons(s: string) {
    s != "" && s[0] != ':' && s[|s| - 1] != ':'
    && forall k :: 0 <= k < |s| - 1 ==> !(s[k] == ':' && s[k + 1] == ':')
  }

  ghost predicate PlainGroups(gs: seq<string>) {
    forall g :: g in gs ==> g != "" && ':' !in g && '%' !in g
  }

  lemma {:induction false} JoinedGroups(gs: seq<string>)
    requires gs != [] && PlainGroups(gs)
    ensures SingleColons(Join(gs, ':')) && '%' !in Join(gs, ':')
  {
    var first := gs[0];
    assert first in gs;
    if |gs| > 1 {
      var rest := Join(gs[1..], ':');
      assert forall g :: g in gs[1..] ==> g in gs;
      JoinedGroups(gs[1..]);
      var s := first + [':'] + rest;
      forall k | 0 <= k < |s| - 1
        ensures !(s[k] == ':' && s[k + 1] == ':')
      {
        if k > |first| {
          assert s[k] == rest[k - |first| - 1] && s[k + 1] == rest[k - |first|];
        }
      }
    }
  }

  lemma NoDouble(s: string)
    requires s == "" || SingleColons(s)
    ensures IndexOfSub(s, "::") == -1 && SplitDouble(s) == [s]
  {
    forall k | 0 <= k <= |s|
      ensures !("::" <= s[k..])
    {
      assert k + 2 <= |s| ==> s[k..][0] == s[k] && s[k..][1] == s[k + 1];
    }
  }

  lemma FirstDouble(head: string, tail: string)
    requires head == "" || SingleColons(head)
    ensures IndexOfSub(head + "::" + tail, "::") == |head|
  {
    hide IndexOfSub;
    var s := head + "::" + tail;
    assert "::" <= s[|head|..];
    var i := IndexOfSub(s, "::");
    assert s[i..][0] == ':' && s[i..][1] == ':';
  }

  lemma OneDouble(head: string, tail: string)
    requires (head == "" || SingleColons(head)) && (tail == "" || SingleColons(tail))
    ensures SplitDouble(head + "::" + tail) == [head, tail]
  {
    hide IndexOfSub, SingleColons;
    var s := head + "::" + tail;
    FirstDouble(head, tail);
    assert s[..|head|] == head && s[|head| + 2..] == tail;
    NoDouble(tail);
  }

  lemma {:induction false} OctetsArePlain(quad: seq<string>)
    requires AllOctets(quad) && |quad| == 4
    ensures ParseIpv4(Join(quad, '.')) == Some(Map(DecValue, quad))
    ensures '.' in Join(quad, '.') && ':' !in Join(quad, '.') && '%' !in Join(quad, '.')
    ensures Join(quad, '.') != ""
  {
    forall p | p in quad
      ensures '.' !in p && ':' !in p && '%' !in p
    {
      assert OctetText(p);
    }
    SplitJoin(quad, '.');
    JoinKeepsOut(quad, '.', ':');
    JoinKeepsOut(quad, '.', '%');
    assert Join(quad, '.')[|quad[0]|] == '.';
  }

  lemma {:induction false} JoinKeepsOut(parts: seq<string>, sep: char, c: char)
    requires c != sep && forall p :: p in parts ==> c !in p
    ensures c !in Join(parts, sep)
  {
    if |parts| > 1 {
      JoinKeepsOut(parts[1..], sep, c);
    }
  }

  lemma GroupsArePlain(gs: seq<string>, quad: Option<seq<string>>)
    requires AllGroups(gs) && (quad.Some? ==> |quad.value| == 4 && AllOctets(quad.value))
    ensures PlainGroups(Groups(gs, quad))
  {
    if quad.Some? {
      OctetsArePlain(quad.value);
    }
    assert forall g :: g in gs ==> GroupText(g);
  }

  lemma {:induction false} HexGroups(gs: seq<string>, quad: Option<seq<string>>)
    requires AllGroups(gs) && (quad.Some? ==> |quad.value| == 4 && AllOctets(quad.value))
    ensures AllHextets(Groups(gs, quad)) == Some(Map(HexValue, gs) + QuadHextets(quad))
    decreases |gs|
  {
    hide AllHextets, HexValue, DecValue, Join;
    var all := Groups(gs, quad);
    if gs == [] {
      QuadGroup(quad);
      assert Map(HexValue, gs) + QuadHextets(quad) == QuadHextets(quad);
    } else {
      var rest := gs[1..];
      assert all == [gs[0]] + Groups(rest, quad);
      HexGroups(rest, quad);
      HexGroupFirst(gs[0], Groups(rest, quad), Map(HexValue, rest) + QuadHextets(quad));
      assert Map(HexValue, gs) == [HexValue(gs[0])] + Map(HexValue, rest);
      assert [HexValue(gs[0])] + (Map(HexValue, rest) + QuadHextets(quad))
          == Map(HexValue, gs) + QuadHextets(quad);
    }
  }

  lemma HexGroupFirst(g: string, rest: seq<string>, h: seq<int>)
    requires GroupText(g) && AllHextets(rest) == Some(h)
    ensures AllHextets([g] + rest) == Some([HexValue(g)] + h)
  {
    assert ([g] + rest)[1..] == rest;
  }

  lemma QuadGroup(quad: Option<seq<string>>)
    requires quad.Some? ==> |quad.value| == 4 && AllOctets(quad.value)
    ensures AllHextets(Groups([], quad)) == Some(QuadHextets(quad))
  {
    if quad.Some? {
      OctetsArePlain(quad.value);
      var all := [Join(quad.value, '.')];
      assert Groups([], quad) == all && all[1..] == [];
      assert QuadHextets(quad) + [] == QuadHextets(quad);
    }
  }

  ghost function QuadHextets(quad: Option<seq<string>>): seq<int>
    requires quad.Some? ==> |quad.value| == 4
  {
    if quad.None? then []
    else
      var v := Map(DecValue, quad.value);
      [v[0] * 256 + v[1], v[2] * 256 + v[3]]
  }

  /** The text of a run of groups expands to their values. */
  lemma PartOfGroups(gs: seq<string>, quad: Option<seq<string>>)
    requires AllGroups(gs) && (quad.Some? ==> |quad.value| == 4 && AllOctets(quad.value))
    ensures var part := Join(Groups(gs, quad), ':');
            && PartHextets(part) == Some(Map(HexValue, gs) + QuadHextets(quad))
            && (part == "" || SingleColons(part)) && '%' !in part
  {
    var all := Groups(gs, quad);
    GroupsArePlain(gs, quad);
    HexGroups(gs, quad);
    if all != [] {
      JoinedGroups(all);
      SplitJoin(all, ':');
    }
  }

  lemma {:induction false} BytesConcat(a: seq<int>, b: seq<int>)
    ensures BytesOf(a + b) == BytesOf(a) + BytesOf(b)
  {
    if a == [] {
      assert a + b == b;
    } else {
      assert (a + b)[1..] == a[1..] + b;
      BytesConcat(a[1..], b);
    }
  }

  lemma {:induction false} BytesOfZeros(n: nat)
    ensures BytesOf(Zeros(n)) == Zeros(2 * n)
  {
    if n > 0 {
      assert Zeros(n)[1..] == Zeros(n - 1);
      BytesOfZeros(n - 1);
    }
  }

  lemma ByteHalves(a: int, b: int)
    requires 0 <= a <= 255 && 0 <= b <= 255
    ensures (a * 256 + b) / 256 % 256 == a && (a * 256 + b) % 256 == b
  {
  }

  lemma BytesOfPair(x: int, y: int)
    ensures BytesOf([x, y]) == [x / 256 % 256, x % 256, y / 256 % 256, y % 256]
  {
    assert [x, y] == [x] + [y];
    BytesConcat([x], [y]);
  }

  lemma QuadBytes(quad: seq<string>)
    requires |quad| == 4 && AllOctets(quad)
    ensures BytesOf(QuadHextets(Some(quad))) == Map(DecValue, quad)
  {
    hide DecValue, BytesOf;
    var v := Map(DecValue, quad);
    assert forall i :: 0 <= i < 4 ==> 0 <= v[i] <= 255;
    ByteHalves(v[0], v[1]);
    ByteHalves(v[2], v[3]);
    BytesOfPair(v[0] * 256 + v[1], v[2] * 256 + v[3]);
  }

  ghost function QuadValue(f: Form): seq<int> {
    if f.quad.Some? then Map(DecValue, f.quad.value) else []
  }

  lemma {:induction false} QuadValueBytes(f: Form)
    requires WellFormed(f)
    ensures BytesOf(QuadHextets(f.quad)) == QuadValue(f)
    ensures |QuadValue(f)| == 2 * |QuadHextets(f.quad)|
  {
    if f.quad.Some? {
      QuadBytes(f.quad.value);
    }
  }

  lemma GapBytes(f: Form)
    requires WellFormed(f) && f.gap
    ensures var head, tail := Map(HexValue, f.head), Map(HexValue, f.tail) + QuadHextets(f.quad);
            |head| + |tail| <= 7 && BytesOf(head + Zeros(8 - |head| - |tail|) + tail) == Denote(f)
  {
    hide BytesOf, Zeros, HexValue, DecValue;
    var head, low := Map(HexValue, f.head), Map(HexValue, f.tail);
    var quad := QuadHextets(f.quad);
    QuadValueBytes(f);
    var n := 8 - |head| - |low + quad|;
    BytesOfZeros(n);
    BytesConcat(head + Zeros(n), low + quad);
    BytesConcat(head, Zeros(n));
    BytesConcat(low, quad);
    var left := BytesOf(head) + Zeros(2 * n);
    assert left + (BytesOf(low) + QuadValue(f)) == left + BytesOf(low) + QuadValue(f);
  }

  lemma NoZone(s: string)
    requires '%' !in s
    ensures WithoutZone(s) == s
  {
  }

  lemma HalvesFill(left: string, right: string, head: seq<int>, tail: seq<int>)
    requires PartHextets(left) == Some(head) && PartHextets(right) == Some(tail)
    requires |head| + |tail| <= 8
    ensures ExpandHalves([left, right]) == Some(BytesOf(head + Zeros(8 - |head| - |tail|) + tail))
  {
    hide PartHextets, BytesOf, Zeros;
  }

  lemma TwoParts(left: string, right: string, head: seq<int>, tail: seq<int>, s: string)
    requires s == left + "::" + right
    requires (left == "" || SingleColons(left)) && (right == "" || SingleColons(right))
    requires '%' !in left && '%' !in right
    requires PartHextets(left) == Some(head) && PartHextets(right) == Some(tail)
    requires |head| + |tail| <= 8
    ensures '%' !in s
    ensures ExpandIpv6(s) == Some(BytesOf(head + Zeros(8 - |head| - |tail|) + tail))
  {
    assert '%' !in s;
    NoZone(s);
    assert SplitDouble(s) == [left, right] by {
      OneDouble(left, right);
    }
    HalvesFill(left, right, head, tail);
  }

  lemma GapExpands(f: Form)
    requires WellFormed(f) && f.gap
    ensures ExpandIpv6(Render(f)) == Some(Denote(f)) && '%' !in Render(f)
  {
    hide Join, PartHextets, ExpandIpv6, BytesOf, Zeros, HexValue, SingleColons, Denote;
    var left, right := Join(f.head, ':'), Join(Groups(f.tail, f.quad), ':');
    var head, tail := Map(HexValue, f.head), Map(HexValue, f.tail) + QuadHextets(f.quad);
    GapBytes(f);
    PartOfGroups(f.tail, f.quad);
    PartOfGroups(f.head, None);
    assert Groups(f.head, None) == f.head && head + QuadHextets(None) == head;
    TwoParts(left, right, head, tail, Render(f));
  }

  lemma NoGapExpands(f: Form)
    requires WellFormed(f) && !f.gap
    ensures ExpandIpv6(Render(f)) == Some(Denote(f)) && '%' !in Render(f)
  {
    PartOfGroups(f.head, f.quad);
    NoDouble(Render(f));
    QuadValueBytes(f);
    BytesConcat(Map(HexValue, f.head), QuadHextets(f.quad));
  }

  /** Every RFC 4291 text form expands to the sixteen bytes it denotes. */
  lemma ExpandUndoesRender(f: Form)
    requires WellFormed(f)
    ensures ExpandIpv6(Render(f)) == Some(Denote(f)) && '%' !in Render(f)
  {
    if f.gap {
      GapExpands(f);
    } else {
      NoGapExpands(f);
    }
  }

  /** A scope id does not change the address. */
  lemma ZoneIsIgnored(f: Form, zone: string)
    requires WellFormed(f)
    ensures ExpandIpv6(Render(f) + "%" + zone) == Some(Denote(f))
  {
    ExpandUndoesRender(f);
    IndexOfFirst(Render(f), '%', zone);
    var s := Render(f) + ['%'] + zone;
    assert Render(f) + "%" + zone == s;
    assert WithoutZone(s) == Render(f);
  }

  // ---- Ranges ----

  /** `x & y` on non-negative integers. */
  function And(x: int, y: int): int
    requires x >= 0 && y >= 0
  {
    if x == 0 || y == 0 then 0
    else 2 * And(x / 2, y / 2) + (if x % 2 == 1 && y % 2 == 1 then 1 else 0)
  }

  predicate AllZero(b: seq<int>) {
    forall i :: 0 <= i < |b| ==> b[i] == 0
  }

  predicate IsMapped(b: seq<int>)
    requires |b| == 16
  {
    AllZero(b[..10]) && b[10] == 0xff && b[11] == 0xff
  }

  predicate IsDisallowedIpv4Bytes(b: seq<int>)
    requires |b| == 4
  {
    var a, second := b[0], b[1];
    || a == 0 || a == 127 || a == 10
    || (a == 172 && second >= 16 && second <= 31)
    || (a == 192 && second == 168)
    || (a == 169 && second == 254)
  }

  predicate IsDisallowedIpv4(ip: string) {
    var b := ParseIpv4(ip);
    b.None? || IsDisallowedIpv4Bytes(b.value)
  }

  predicate IsDisallowedIpv6Bytes(b: seq<int>)
    requires |b| == 16 && Bytes(b)
  {
    || AllZero(b)
    || (AllZero(b[..15]) && b[15] == 1)
    || if IsMapped(b) then IsDisallowedIpv4Bytes(b[12..])
       else And(b[0], 0xfe) == 0xfc || (b[0] == 0xfe && And(b[1], 0xc0) == 0x80)
  }

  predicate IsDisallowedIpv6(ip: string) {
    var b := ExpandIpv6(ip);
    b.None? || (ExpandedBytes(ip); IsDisallowedIpv6Bytes(b.value))
  }

  /** `isIP`, Node's classifier, is a parameter: 4, 6, or anything else for a host name. */
  predicate IsDisallowedAddress(ip: string, isIP: string -> int) {
    if isIP(ip) == 4 then IsDisallowedIpv4(ip)
    else isIP(ip) == 6 && IsDisallowedIpv6(ip)
  }

  predicate LanBlocksIpv4(ip: string) {
    var b := ParseIpv4(ip);
    b.None? || b.value[0] == 0 || b.value[0] == 127 || (b.value[0] == 169 && b.value[1] == 254)
  }

  /** The call on the reprinted quad of a mapped address takes the IPv4 branch, as `isIP` does for
      every dotted quad. */
  predicate LanBlocksIpv6Bytes(b: seq<int>)
    requires |b| == 16 && Bytes(b)
  {
    || AllZero(b)
    || (AllZero(b[..15]) && b[15] == 1)
    || if IsMapped(b) then LanBlocksIpv4(Quad(b[12..]))
       else b[0] == 0xfe && And(b[1], 0xc0) == 0x80
  }

  predicate IsLoopbackOrLinkLocalAddress(ip: string, isIP: string -> int) {
    var b := ExpandIpv6(ip);
    if isIP(ip) == 4 then LanBlocksIpv4(ip)
    else isIP(ip) == 6 && (b.None? || (ExpandedBytes(ip); LanBlocksIpv6Bytes(b.value)))
  }

  lemma ExpandedBytes(ip: string)
    ensures ExpandIpv6(ip).Some? ==> |ExpandIpv6(ip).value| == 16 && Bytes(ExpandIpv6(ip).value)
  {
    hide PartHextets, SplitDouble, WithoutZone;
    var halves := SplitDouble(WithoutZone(ip));
    if |halves| <= 2 {
      var head := PartHextets(halves[0]);
      if head.Some? {
        BytesAreBytes(head.value);
        if |halves| == 2 && PartHextets(halves[1]).Some? {
          var tail := PartHextets(halves[1]).value;
          var missing := 8 - |head.value| - |tail|;
          if missing >= 0 {
            BytesAreBytes(head.value + Zeros(missing) + tail);
          }
        }
      }
    }
  }

  lemma {:induction false} BytesAreBytes(h: seq<int>)
    ensures Bytes(BytesOf(h))
  {
    if h != [] {
      BytesAreBytes(h[1..]);
    }
  }

  // ---- The dotted quad reprints ----

  /** The template `${a}.${b}.${c}.${d}`. */
  function Quad(b: seq<int>): string
    requires |b| == 4 && Bytes(b)
  {
    Join([Decimal(b[0]), Decimal(b[1]), Decimal(b[2]), Decimal(b[3])], '.')
  }

  lemma ParseUndoesQuad(b: seq<int>)
    requires |b| == 4 && Bytes(b)
    ensures ParseIpv4(Quad(b)) == Some(b)
  {
    hide DecValue;
    var quad := [Decimal(b[0]), Decimal(b[1]), Decimal(b[2]), Decimal(b[3])];
    assert AllOctets(quad);
    OctetsArePlain(quad);
    assert Map(DecValue, quad) == b;
  }

  // ---- Mask tests are range tests ----

  function Pow2(k: nat): (r: int)
    ensures r >= 1
  {
    if k == 0 then 1 else 2 * Pow2(k - 1)
  }

  lemma {:induction false} AndOnes(v: int, k: nat)
    requires 0 <= v < Pow2(k)
    ensures And(v, Pow2(k) - 1) == v
  {
    if k > 0 && v > 0 {
      assert (Pow2(k) - 1) / 2 == Pow2(k - 1) - 1 && (Pow2(k) - 1) % 2 == 1;
      AndOnes(v / 2, k - 1);
    }
  }

  /** Shifting a zero low bit of a mask out. */
  lemma AndHalf(x: int, y: int)
    requires x >= 0 && y >= 0
    ensures And(x, 2 * y) == 2 * And(x / 2, y)
  {
  }

  lemma AndC0(b: int)
    requires 0 <= b <= 255
    ensures And(b, 0xc0) == 64 * (b / 64)
  {
    hide And;
    AndHalf(b, 0x60);
    AndHalf(b / 2, 0x30);
    AndHalf(b / 4, 0x18);
    AndHalf(b / 8, 0x0c);
    AndHalf(b / 16, 0x06);
    AndHalf(b / 32, 0x03);
    assert Pow2(2) == 4;
    AndOnes(b / 64, 2);
  }

  lemma AndFe(b: int)
    requires 0 <= b <= 255
    ensures And(b, 0xfe) == 2 * (b / 2)
  {
    hide And;
    AndHalf(b, 0x7f);
    assert Pow2(7) == 128;
    AndOnes(b / 2, 7);
  }

  /** The mask tests of the guard, as ranges of one byte. */
  lemma MasksAreRanges(b: int)
    requires 0 <= b <= 255
    ensures And(b, 0xfe) == 0xfc <==> 0xfc <= b <= 0xfd
    ensures And(b, 0xc0) == 0x80 <==> 0x80 <= b <= 0xbf
  {
    hide And;
    AndFe(b);
    AndC0(b);
  }

  // ---- Addresses as numbers ----

  function Num(b: seq<int>): int {
    if b == [] then 0 else Num(b[..|b| - 1]) * 256 + b[|b| - 1]
  }

  function Pow256(n: nat): (r: int)
    ensures r >= 1
  {
    if n == 0 then 1 else Pow256(n - 1) * 256
  }

  lemma {:induction false} NumBelow(b: seq<int>)
    requires Bytes(b)
    ensures 0 <= Num(b) < Pow256(|b|)
    ensures Num(b) == 0 <==> AllZero(b)
  {
    if b != [] {
      NumBelow(b[..|b| - 1]);
    }
  }

  /** The first `j` bytes are the high digits of the number. */
  lemma {:induction false} NumSplit(b: seq<int>, j: nat)
    requires Bytes(b) && j <= |b|
    ensures Num(b) == Num(b[..j]) * Pow256(|b| - j) + Num(b[j..])
    decreases |b|
  {
    if j == |b| {
      assert b[..j] == b;
    } else {
      var low, n := b[j..], |b| - 1;
      NumSplit(b[..n], j);
      assert b[..n][..j] == b[..j] && b[..n][j..] == low[..|low| - 1];
      Regroup(Num(b[..j]), Pow256(n - j), Num(b[..n][j..]), b[n]);
    }
  }

  lemma Regroup(high: int, p: int, mid: int, low: int)
    ensures (high * p + mid) * 256 + low == high * (p * 256) + (mid * 256 + low)
  {
  }

  lemma NumExtend(b: seq<int>, k: nat)
    requires k < |b|
    ensures Num(b[..k + 1]) == Num(b[..k]) * 256 + b[k]
  {
    assert b[..k + 1][..k] == b[..k];
  }

  ghost predicate InRange(x: int, prefix: int, shift: int) {
    prefix * shift <= x < (prefix + 1) * shift
  }

  const TWO_112 := 0x1_0000_0000_0000_0000_0000_0000_0000
  const TWO_118 := 0x40_0000_0000_0000_0000_0000_0000_0000
  const TWO_121 := 0x200_0000_0000_0000_0000_0000_0000_0000

  /** 0.0.0.0/8, 10.0.0.0/8, 127.0.0.0/8, 169.254.0.0/16, 172.16.0.0/12 and 192.168.0.0/16. */
  ghost predicate RefusedIpv4(x: int) {
    || InRange(x, 0, 0x100_0000) || InRange(x, 10, 0x100_0000) || InRange(x, 127, 0x100_0000)
    || InRange(x, 0xa9fe, 0x1_0000) || InRange(x, 0xac1, 0x10_0000) || InRange(x, 0xc0a8, 0x1_0000)
  }

  /** ::, ::1, fc00::/7, fe80::/10, and the mapped block ::ffff:0:0/96 over `RefusedIpv4`. */
  ghost predicate RefusedIpv6(x: int) {
    || x == 0 || x == 1
    || (InRange(x, 0xffff, 0x1_0000_0000) && RefusedIpv4(x - 0xffff * 0x1_0000_0000))
    || InRange(x, 0x7e, TWO_121) || InRange(x, 0x3fa, TWO_118)
  }

  lemma FourBytes(b: seq<int>)
    requires |b| == 4 && Bytes(b)
    ensures Num(b) == b[0] * 0x100_0000 + b[1] * 0x1_0000 + b[2] * 0x100 + b[3]
  {
    NumExtend(b, 0);
    NumExtend(b, 1);
    NumExtend(b, 2);
    NumExtend(b, 3);
    assert b[..4] == b;
  }

  /** The IPv4 tests refuse exactly the six ranges. */
  lemma Ipv4GuardIsRanges(b: seq<int>)
    requires |b| == 4 && Bytes(b)
    ensures IsDisallowedIpv4Bytes(b) <==> RefusedIpv4(Num(b))
  {
    FourBytes(b);
  }

  lemma TwoBytesThenRest(b: seq<int>)
    requires |b| == 16 && Bytes(b)
    ensures (b[0] * 256 + b[1]) * TWO_112 <= Num(b) < (b[0] * 256 + b[1] + 1) * TWO_112
  {
    assert Pow256(14) == TWO_112;
    hide Num, Pow256;
    FirstTwoBytes(b);
    NumSplit(b, 2);
    NumBelow(b[2..]);
  }

  lemma FirstTwoBytes(b: seq<int>)
    requires |b| >= 2
    ensures Num(b[..2]) == b[0] * 256 + b[1]
  {
    assert Num(b[..0]) == 0;
    hide Num;
    NumExtend(b, 0);
    NumExtend(b, 1);
  }

  lemma HighTwelveBytes(b: seq<int>)
    requires |b| == 16 && Bytes(b)
    ensures Num(b) == Num(b[..12]) * 0x1_0000_0000 + Num(b[12..])
    ensures 0 <= Num(b[12..]) < 0x1_0000_0000
  {
    assert Pow256(4) == 0x1_0000_0000;
    hide Num, Pow256;
    NumSplit(b, 12);
    NumBelow(b[12..]);
  }

  lemma LastTwoOfTwelve(b: seq<int>)
    requires |b| == 16 && Bytes(b)
    ensures Num(b[..12]) == Num(b[..10]) * 0x1_0000 + b[10] * 256 + b[11]
    ensures 0 <= Num(b[..10])
    ensures Num(b[..10]) == 0 <==> AllZero(b[..10])
  {
    hide Num, Pow256, AllZero;
    NumBelow(b[..10]);
    NumExtend(b, 10);
    NumExtend(b, 11);
  }

  lemma MappedIsRange(b: seq<int>)
    requires |b| == 16 && Bytes(b)
    ensures IsMapped(b) <==> InRange(Num(b), 0xffff, 0x1_0000_0000)
    ensures IsMapped(b) ==> Num(b) == 0xffff * 0x1_0000_0000 + Num(b[12..])
  {
    hide Num, AllZero;
    HighTwelveBytes(b);
    LastTwoOfTwelve(b);
    DigitsOfFfff(Num(b), Num(b[..10]), b[10], b[11], Num(b[12..]));
  }

  lemma DigitsOfFfff(x: int, high: int, m: int, n: int, low: int)
    requires x == (high * 0x1_0000 + m * 256 + n) * 0x1_0000_0000 + low
    requires 0 <= high && 0 <= m <= 255 && 0 <= n <= 255 && 0 <= low < 0x1_0000_0000
    ensures high == 0 && m == 0xff && n == 0xff <==> InRange(x, 0xffff, 0x1_0000_0000)
  {
  }

  lemma LoopbackIsOne(b: seq<int>)
    requires |b| == 16 && Bytes(b)
    ensures AllZero(b) <==> Num(b) == 0
    ensures AllZero(b[..15]) && b[15] == 1 <==> Num(b) == 1
  {
    hide Num, Pow256;
    NumBelow(b);
    NumBelow(b[..15]);
    NumExtend(b, 15);
    assert b[..16] == b;
  }

  lemma LocalMasksAreRanges(b: seq<int>)
    requires |b| == 16 && Bytes(b)
    ensures And(b[0], 0xfe) == 0xfc <==> InRange(Num(b), 0x7e, TWO_121)
    ensures b[0] == 0xfe && And(b[1], 0xc0) == 0x80 <==> InRange(Num(b), 0x3fa, TWO_118)
  {
    hide And, Num;
    MasksAreRanges(b[0]);
    MasksAreRanges(b[1]);
    TwoBytesThenRest(b);
  }

  /** The byte and mask tests refuse exactly the 128-bit ranges they stand for. */
  lemma Ipv6GuardIsRanges(b: seq<int>)
    requires |b| == 16 && Bytes(b)
    ensures IsDisallowedIpv6Bytes(b) <==> RefusedIpv6(Num(b))
  {
    hide And, Num, IsMapped, IsDisallowedIpv4Bytes, RefusedIpv4;
    LoopbackIsOne(b);
    LocalMasksAreRanges(b);
    MappedIsRange(b);
    Ipv4GuardIsRanges(b[12..]);
  }

  // ---- The two host policies ----

  /** 10.0.0.0/8, 172.16.0.0/12 and 192.168.0.0/16. */
  predicate PrivateIpv4(b: seq<int>)
    requires |b| == 4
  {
    b[0] == 10 || (b[0] == 172 && 16 <= b[1] <= 31) || (b[0] == 192 && b[1] == 168)
  }

  /** An address is refused under `public` exactly when it is refused under `lan-ok` or lies in a
      private or unique-local range. */
  lemma {:induction false} PoliciesDifferByPrivateRanges(ip: string, isIP: string -> int)
    ensures IsLoopbackOrLinkLocalAddress(ip, isIP) ==> IsDisallowedAddress(ip, isIP)
    ensures isIP(ip) == 4 ==>
              (IsDisallowedAddress(ip, isIP) <==>
                 IsLoopbackOrLinkLocalAddress(ip, isIP)
                 || (ParseIpv4(ip).Some? && PrivateIpv4(ParseIpv4(ip).value)))
    ensures isIP(ip) == 6 && ExpandIpv6(ip).Some? ==>
              var b := ExpandIpv6(ip).value;
              |b| == 16 && Bytes(b) &&
              (IsDisallowedAddress(ip, isIP) <==>
                 IsLoopbackOrLinkLocalAddress(ip, isIP)
                 || (IsMapped(b) && PrivateIpv4(b[12..]))
                 || InRange(Num(b), 0x7e, TWO_121))
  {
    hide ExpandIpv6, ParseIpv4, Quad, Num, And, IsMapped;
    ExpandedBytes(ip);
    if isIP(ip) == 6 && ExpandIpv6(ip).Some? {
      var b := ExpandIpv6(ip).value;
      ParseUndoesQuad(b[12..]);
      LocalMasksAreRanges(b);
      MappedIsRange(b);
      LoopbackIsOne(b);
    }
  }
}
