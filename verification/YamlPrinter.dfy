/** A printer of nested maps, and the proof that the flattener of
    services/agent/internal/builder/inspector.go undoes it. */
module YamlPrinter {
  import opened Text
  import opened FlattenYaml

  datatype Node = Scalar(val: string) | Mapping(children: Forest)

  /** The entries of one map, in print order. */
  datatype Forest = Nil | Entry(key: string, node: Node, rest: Forest)

  // ---- Side conditions, as the flattener's conditions dictate them ----

  predicate PrintableKey(k: string) {
    && k != "" && Trimmed(k, IsSpace)
    && ':' !in k && '\n' !in k
    && k[0] != '#' && !HasPrefix(k, "- ")
  }

  predicate PrintableValue(v: string) {
    && v != "" && Trimmed(v, IsSpace) && Trimmed(v, IsQuote)
    && '\n' !in v
    && v[0] != '#' && !Contains(v, " #")
  }

  predicate Printable(f: Forest) {
    match f
    case Nil => true
    case Entry(key, node, rest) =>
      && PrintableKey(key)
      && (match node case Scalar(val) => PrintableValue(val) case Mapping(children) => Printable(children))
      && Printable(rest)
  }

  // ---- The printer ----

  function Pad(n: nat): (r: string)
    ensures |r| == n && forall c :: c in r ==> c == ' '
  {
    seq(n, _ => ' ')
  }

  function Print(f: Forest, base: nat, step: nat): seq<string> {
    match f
    case Nil => []
    case Entry(key, Scalar(val), rest) => [Pad(base) + key + ": " + val] + Print(rest, base, step)
    case Entry(key, Mapping(children), rest) =>
      [Pad(base) + key + ":"] + Print(children, base + step, step) + Print(rest, base, step)
  }

  function PrintText(f: Forest, base: nat, step: nat): string {
    Join(Print(f, base, step), '\n')
  }

  // ---- What the tree means: its scalars in order, each under its dotted path ----

  function Leaves(f: Forest, path: seq<string>): seq<(string, string)> {
    match f
    case Nil => []
    case Entry(key, Scalar(val), rest) =>
      [(Join(path + [key], '.'), val)] + Leaves(rest, path)
    case Entry(key, Mapping(children), rest) =>
      Leaves(children, path + [key]) + Leaves(rest, path)
  }

  function Bind(m: map<string, string>, leaves: seq<(string, string)>): map<string, string>
    decreases leaves
  {
    if leaves == [] then m else Bind(m[leaves[0].0 := leaves[0].1], leaves[1..])
  }

  lemma {:induction false} BindConcat(m: map<string, string>, a: seq<(string, string)>, b: seq<(string, string)>)
    ensures Bind(m, a + b) == Bind(Bind(m, a), b)
    decreases a
  {
    if a == [] {
      assert a + b == b;
    } else {
      assert (a + b)[1..] == a[1..] + b;
      BindConcat(m[a[0].0 := a[0].1], a[1..], b);
    }
  }

  // ---- Each printed line is classified as what it was printed from ----

  function PrintedLines(f: Forest, base: nat, step: nat): seq<Line> {
    match f
    case Nil => []
    case Entry(key, Scalar(val), rest) => [Leaf(base, key, val)] + PrintedLines(rest, base, step)
    case Entry(key, Mapping(children), rest) =>
      [Header(base, key)] + PrintedLines(children, base + step, step) + PrintedLines(rest, base, step)
  }

  lemma BodyOfPadded(pad: string, body: string)
    requires forall c :: c in pad ==> c == ' '
    requires body != "" && !IsSpace(body[0]) && !IsSpace(body[|body| - 1])
    ensures TrimRight(pad + body, IsCr) == pad + body
    ensures TrimSpace(pad + body) == body
    ensures TrimLeft(pad + body, IsBlank) == body
  {
    assert (pad + body)[|pad + body| - 1] == body[|body| - 1];
    TrimLeftOfPadding(pad, body, IsSpace);
    TrimLeftOfPadding(pad, body, IsBlank);
  }

  /** A line that starts with a printable key is no comment, list item or separator. */
  lemma PlainStart(key: string, tail: string)
    requires PrintableKey(key)
    ensures var body := key + ":" + tail;
            && body != "" && !HasPrefix(body, "#") && body != "---"
            && !HasPrefix(body, "- ") && body != "-"
  {
    hide IsSpace;
    var body := key + ":" + tail;
    assert body[|key|] == ':' && body[0] == key[0];
    assert body[1] == if |key| == 1 then ':' else key[1];
    assert "- "[1] == ' ' && "#"[0] == '#';
    assert |key| > 1 && key[0] == '-' && key[1] == ' ' ==> HasPrefix(key, "- ");
  }

  lemma ColonOfBody(key: string, tail: string, indent: nat)
    requires PrintableKey(key)
    ensures ClassifyTrimmed(key + ":" + tail, indent) == ClassifyEntry(key, TrimSpace(tail), indent)
  {
    hide HasPrefix, IndexOf, IsSpace, Trim, ClassifyEntry;
    var body := key + ":" + tail;
    PlainStart(key, tail);
    IndexOfFirst(key, ':', tail);
    TrimTrimmed(key, IsSpace);
    assert body[..|key|] == key && body[|key| + 1..] == tail;
  }

  lemma {:induction false} EntryLine(base: nat, key: string, tail: string)
    requires PrintableKey(key)
    requires tail == "" || !IsSpace(tail[|tail| - 1])
    ensures Classify(Pad(base) + (key + ":" + tail)) == ClassifyEntry(key, TrimSpace(tail), base)
  {
    BodyOfPadded(Pad(base), key + ":" + tail);
    ColonOfBody(key, tail, base);
  }

  lemma ValueKept(val: string)
    requires PrintableValue(val)
    ensures TrimSpace(" " + val) == val
    ensures Trim(TrimSpace(StripComment(val)), IsQuote) == val
  {
    BodyOfPadded(" ", val);
    TrimTrimmed(val, IsSpace);
    TrimTrimmed(val, IsQuote);
  }

  lemma {:induction false} HeaderLine(base: nat, key: string)
    requires PrintableKey(key)
    ensures Classify(Pad(base) + key + ":") == Header(base, key)
  {
    assert Pad(base) + key + ":" == Pad(base) + (key + ":" + "");
    EntryLine(base, key, "");
    assert TrimSpace("") == "";
  }

  lemma {:induction false} LeafLine(base: nat, key: string, val: string)
    requires PrintableKey(key) && PrintableValue(val)
    ensures Classify(Pad(base) + key + ": " + val) == Leaf(base, key, val)
  {
    assert Pad(base) + key + ": " + val == Pad(base) + (key + ":" + (" " + val));
    EntryLine(base, key, " " + val);
    ValueKept(val);
    assert !HasPrefix(val, "#");
  }

  lemma {:induction false} PrintedAreClassified(f: Forest, base: nat, step: nat)
    requires Printable(f)
    ensures Map(Classify, Print(f, base, step)) == PrintedLines(f, base, step)
    decreases f
  {
    match f
    case Nil =>
    case Entry(key, Scalar(val), rest) =>
      PrintedAreClassified(rest, base, step);
      LeafLine(base, key, val);
      FirstClassified(Pad(base) + key + ": " + val, Leaf(base, key, val), Print(rest, base, step));
    case Entry(key, Mapping(children), rest) =>
      PrintedAreClassified(children, base + step, step);
      PrintedAreClassified(rest, base, step);
      HeaderLine(base, key);
      HeaderClassified(Pad(base) + key + ":", Header(base, key),
                       Print(children, base + step, step), Print(rest, base, step));
  }

  lemma {:induction false} HeaderClassified(raw: string, line: Line, inner: seq<string>, outer: seq<string>)
    requires Classify(raw) == line
    ensures Map(Classify, [raw] + inner + outer)
         == [line] + Map(Classify, inner) + Map(Classify, outer)
  {
    FirstClassified(raw, line, inner);
    MapConcat(Classify, [raw] + inner, outer);
  }

  lemma {:induction false} FirstClassified(raw: string, line: Line, rest: seq<string>)
    requires Classify(raw) == line
    ensures Map(Classify, [raw] + rest) == [line] + Map(Classify, rest)
  {
    MapConcat(Classify, [raw], rest);
    assert Map(Classify, [raw]) == [Classify(raw)];
  }

  lemma {:induction false} NoNewlines(f: Forest, base: nat, step: nat)
    requires Printable(f)
    ensures forall p :: p in Print(f, base, step) ==> '\n' !in p
  {
    match f
    case Nil =>
    case Entry(_, Scalar(_), rest) => NoNewlines(rest, base, step);
    case Entry(_, Mapping(children), rest) =>
      NoNewlines(children, base + step, step);
      NoNewlines(rest, base, step);
  }

  // ---- The round trip ----

  lemma {:induction false} RunConcat(st: State, a: seq<Line>, b: seq<Line>)
    ensures Run(st, a + b) == Run(Run(st, a), b)
  {
    if b == [] {
      assert a + b == a;
    } else {
      assert (a + b)[..|a + b| - 1] == a + b[..|b| - 1];
      RunConcat(st, a, b[..|b| - 1]);
    }
  }

  lemma RunFirst(st: State, line: Line, rest: seq<Line>)
    ensures Run(st, [line] + rest) == Run(Step(st, line), rest)
  {
    RunConcat(st, [line], rest);
    assert [line][..0] == [];
  }

  lemma {:induction false} PopTwice(stack: seq<Frame>, inner: nat, outer: nat)
    requires outer <= inner
    ensures Pop(Pop(stack, inner), outer) == Pop(stack, outer)
  {
    if stack != [] && stack[|stack| - 1].indent >= inner {
      PopTwice(stack[..|stack| - 1], inner, outer);
    }
  }

  /** Running a printed forest binds its leaves under the frames that enclose it, and leaves
      nothing of it behind on the stack for a line at the forest's own indent. */
  ghost predicate Binds(st: State, end: State, base: nat, leaves: seq<(string, string)>) {
    && Pop(end.stack, base) == Pop(st.stack, base)
    && end.out == Bind(st.out, leaves)
  }

  lemma BindsThen(st: State, mid: State, end: State, base: nat,
                  a: seq<(string, string)>, b: seq<(string, string)>)
    requires Binds(st, mid, base, a) && Binds(mid, end, base, b)
    ensures Binds(st, end, base, a + b)
  {
    BindConcat(st.out, a, b);
  }

  lemma {:induction false} RunPrinted(f: Forest, base: nat, step: nat, st: State)
    requires step > 0
    ensures Binds(st, Run(st, PrintedLines(f, base, step)), base,
                  Leaves(f, Keys(Pop(st.stack, base))))
    decreases f
  {
    hide Binds, Run, Step, Pop, Keys, PrintedLines, Leaves;
    match f
    case Nil =>
      RunPrintedNil(base, step, st);
    case Entry(key, Scalar(val), rest) =>
      RunPrinted(rest, base, step, Step(st, Leaf(base, key, val)));
      RunPrintedScalar(key, val, rest, base, step, st);
    case Entry(key, Mapping(children), rest) =>
      var st1 := Step(st, Header(base, key));
      RunPrinted(children, base + step, step, st1);
      RunPrinted(rest, base, step, Run(st1, PrintedLines(children, base + step, step)));
      RunPrintedMapping(key, children, rest, base, step, st);
  }

  lemma RunPrintedMapping(key: string, children: Forest, rest: Forest, base: nat, step: nat, st: State)
    requires step > 0
    requires var st1 := Step(st, Header(base, key));
             var st2 := Run(st1, PrintedLines(children, base + step, step));
             && Binds(st1, st2, base + step, Leaves(children, Keys(Pop(st1.stack, base + step))))
             && Binds(st2, Run(st2, PrintedLines(rest, base, step)), base,
                      Leaves(rest, Keys(Pop(st2.stack, base))))
    ensures var f := Entry(key, Mapping(children), rest);
            Binds(st, Run(st, PrintedLines(f, base, step)), base, Leaves(f, Keys(Pop(st.stack, base))))
  {
    hide Run, Step, Pop, Keys, Bind;
    var inner, outer := PrintedLines(children, base + step, step), PrintedLines(rest, base, step);
    var st1 := Step(st, Header(base, key));
    var st2 := Run(st1, inner);
    HeaderPushes(key, st, st1, base, step);
    HeaderThenChildren(key, st, st1, st2, base, step, Leaves(children, Keys(st1.stack)));
    var keys := Keys(Pop(st.stack, base));
    BindsThen(st, st2, Run(st2, outer), base, Leaves(children, keys + [key]), Leaves(rest, keys));
    RunHeader(key, inner, outer, base, st);
  }

  lemma RunHeader(key: string, inner: seq<Line>, outer: seq<Line>, base: nat, st: State)
    ensures Run(st, [Header(base, key)] + inner + outer)
         == Run(Run(Step(st, Header(base, key)), inner), outer)
  {
    assert [Header(base, key)] + inner + outer == [Header(base, key)] + (inner + outer);
    RunFirst(st, Header(base, key), inner + outer);
    RunConcat(Step(st, Header(base, key)), inner, outer);
  }

  lemma RunPrintedNil(base: nat, step: nat, st: State)
    ensures Binds(st, Run(st, PrintedLines(Nil, base, step)), base, Leaves(Nil, Keys(Pop(st.stack, base))))
  {
  }

  lemma RunPrintedScalar(key: string, val: string, rest: Forest, base: nat, step: nat, st: State)
    requires var st1 := Step(st, Leaf(base, key, val));
             Binds(st1, Run(st1, PrintedLines(rest, base, step)), base,
                   Leaves(rest, Keys(Pop(st1.stack, base))))
    ensures var f := Entry(key, Scalar(val), rest);
            Binds(st, Run(st, PrintedLines(f, base, step)), base, Leaves(f, Keys(Pop(st.stack, base))))
  {
    var keys := Keys(Pop(st.stack, base));
    RunFirst(st, Leaf(base, key, val), PrintedLines(rest, base, step));
    PopTwice(st.stack, base, base);
    BindConcat(st.out, [(Join(keys + [key], '.'), val)], Leaves(rest, keys));
  }

  /** A header pushes one frame that its children keep and a line at its own indent drops. */
  lemma HeaderPushes(key: string, st: State, st1: State, base: nat, step: nat)
    requires step > 0 && st1 == Step(st, Header(base, key))
    ensures Pop(st1.stack, base + step) == st1.stack
    ensures Pop(st1.stack, base) == Pop(st.stack, base) && st1.out == st.out
    ensures Keys(st1.stack) == Keys(Pop(st.stack, base)) + [key]
  {
    var outer := Pop(st.stack, base);
    PopLast(outer, Frame(base, key), base + step);
    PopLast(outer, Frame(base, key), base);
    PopTwice(st.stack, base, base);
  }

  lemma HeaderThenChildren(key: string, st: State, st1: State, st2: State, base: nat, step: nat,
                           leaves: seq<(string, string)>)
    requires step > 0 && st1 == Step(st, Header(base, key))
    requires Binds(st1, st2, base + step, leaves)
    ensures Binds(st, st2, base, leaves)
  {
    hide Pop, Keys, Bind, DottedPath;
    HeaderPushes(key, st, st1, base, step);
    PopTwice(st2.stack, base + step, base);
    PopTwice(st1.stack, base + step, base);
  }

  /** The flattener undoes the printer: the text of a tree, printed with any positive indent
      step, flattens to the tree's dotted paths and values. */
  lemma {:induction false} FlattenUndoesPrint(f: Forest, base: nat, step: nat)
    requires Printable(f) && step > 0
    ensures Run(START, Lines(PrintText(f, base, step))).out == Bind(map[], Leaves(f, []))
  {
    var raws := Print(f, base, step);
    PrintedAreClassified(f, base, step);
    RunPrinted(f, base, step, START);
    assert Keys([]) == [];
    if raws == [] {
      assert Split("", '\n') == [""];
      assert Lines("") == [Ignored];
      RunFirst(START, Ignored, []);
    } else {
      NoNewlines(f, base, step);
      SplitJoin(raws, '\n');
    }
  }

  // ---- Lines as people write them ----

  lemma {:induction false} TrimRightKeeps(s: string, post: string, cut: char -> bool)
    requires s != "" && !cut(s[|s| - 1])
    ensures |TrimRight(s + post, cut)| >= |s|
  {
    if post == "" {
      assert s + post == s;
    } else {
      assert (s + post)[..|s| + |post| - 1] == s + post[..|post| - 1];
      TrimRightKeeps(s, post[..|post| - 1], cut);
    }
  }

  predicate AllSpace(s: string) { forall c :: c in s ==> IsSpace(c) }

  predicate AllBlank(s: string) { forall c :: c in s ==> IsBlank(c) }

  predicate AllQuotes(s: string) { forall c :: c in s ==> IsQuote(c) }

  /** Only what lies between the blanks it is indented by and the white space it ends in decides what a
      line is. */
  lemma PaddedLine(pad: string, body: string, post: string)
    requires AllBlank(pad) && AllSpace(post) && body != "" && Trimmed(body, IsSpace)
    ensures Classify(pad + body + post) == ClassifyTrimmed(body, |pad|)
  {
    hide IsSpace, ClassifyTrimmed, TrimRight, TrimLeft, Trim;
    var rest := WithoutCrs(pad + body, post);
    var line := pad + body + rest;
    BlanksAreSpace(pad);
    TrimOfPadding(pad, body, rest, IsSpace);
    NotBlank(body[0]);
    assert line == pad + (body + rest);
    TrimLeftOfPadding(pad, body + rest, IsBlank);
  }

  lemma WithoutCrs(s: string, post: string) returns (rest: string)
    requires AllSpace(post) && s != "" && !IsSpace(s[|s| - 1])
    ensures TrimRight(s + post, IsCr) == s + rest && AllSpace(rest)
  {
    CrIsSpace(s[|s| - 1]);
    hide IsSpace;
    TrimRightKeeps(s, post, IsCr);
    TrimRightTakes(s + post, IsCr);
    hide TrimRight;
    var line := TrimRight(s + post, IsCr);
    rest := line[|s|..];
    assert rest == post[..|rest|];
    assert forall c :: c in rest ==> c in post;
  }

  lemma BlanksAreSpace(pad: string)
    requires AllBlank(pad)
    ensures AllSpace(pad)
  {
  }

  lemma CrIsSpace(c: char)
    requires !IsSpace(c)
    ensures !IsCr(c)
  {
  }

  lemma NotBlank(c: char)
    requires !IsSpace(c)
    ensures !IsBlank(c)
  {
  }

  lemma BlankLine(blank: string)
    requires AllSpace(blank)
    ensures Classify(blank) == Ignored
  {
    TrimRightTakes(blank, IsCr);
    var line := TrimRight(blank, IsCr);
    assert forall c :: c in line ==> c in blank;
    TrimOfNothing(line, IsSpace);
  }

  /** Comments, list items, lines without a colon and lines without a key are ignored, and `---` starts
      a document. */
  lemma NoiseLines(pad: string, body: string, post: string)
    requires AllBlank(pad) && AllSpace(post) && body != "" && Trimmed(body, IsSpace)
    ensures body[0] == '#' || body[0] == ':' || body == "-" || (|body| > 1 && body[0] == '-' && body[1] == ' ') ==>
              Classify(pad + body + post) == Ignored
    ensures ':' !in body && body != "---" ==> Classify(pad + body + post) == Ignored
    ensures body == "---" ==> Classify(pad + body + post) == Separator
  {
    hide IsSpace, Classify;
    PaddedLine(pad, body, post);
    NoiseBody(body, |pad|);
  }

  lemma NoiseBody(body: string, indent: nat)
    requires body != ""
    ensures body[0] == '#' || body[0] == ':' || body == "-" || (|body| > 1 && body[0] == '-' && body[1] == ' ') ==>
              ClassifyTrimmed(body, indent) == Ignored
    ensures ':' !in body && body != "---" ==> ClassifyTrimmed(body, indent) == Ignored
    ensures body == "---" ==> ClassifyTrimmed(body, indent) == Separator
  {
    hide Trim, IndexOf, ClassifyEntry;
    assert "- "[0] == '-' && "- "[1] == ' ' && "---"[0] == '-' && "---"[1] == '-';
    if body[0] == ':' {
      KeylessBody(body, indent);
    }
  }

  lemma KeylessBody(body: string, indent: nat)
    requires body != "" && body[0] == ':'
    ensures ClassifyTrimmed(body, indent) == Ignored
  {
    hide IsSpace, Trim, IndexOf;
    IndexOfFirst("", ':', body[1..]);
    assert "" + [':'] + body[1..] == body && body[..0] == "";
    TrimOfNothing("", IsSpace);
  }

  /** A value with any quotes around it. */
  predicate QuotedValue(open: string, val: string, close: string) {
    var quoted := open + val + close;
    && AllQuotes(open) && AllQuotes(close) && val != "" && Trimmed(val, IsQuote) && Trimmed(quoted, IsSpace)
    && quoted[0] != '#' && !Contains(quoted, " #")
  }

  /** Nothing, or a comment after white space. */
  predicate IsComment(comment: string) {
    || comment == ""
    || exists k :: 0 < k < |comment| && comment[k] == '#' && comment[k - 1] == ' ' && AllSpace(comment[..k])
  }

  lemma FirstComment(quoted: string, comment: string, k: nat)
    requires quoted != "" && Trimmed(quoted, IsSpace) && !Contains(quoted, " #")
    requires 0 < k < |comment| && comment[k] == '#' && comment[k - 1] == ' ' && AllSpace(comment[..k])
    ensures StripComment(quoted + comment) == quoted + comment[..k - 1]
  {
    hide IndexOfSub, IsSpace;
    var s := quoted + comment;
    var at := |quoted| + k - 1;
    assert s[at..][0] == ' ' && s[at..][1] == '#';
    assert " #" <= s[at..];
    HashIsNoSpace();
    forall j | 0 <= j < at
      ensures !(" #" <= s[j..])
    {
      assert s[j..][0] == s[j] && s[j..][1] == s[j + 1];
      if j + 1 < |quoted| {
        assert quoted[j..][0] == s[j] && quoted[j..][1] == s[j + 1];
        assert " #" <= quoted[j..] <==> quoted[j] == ' ' && quoted[j + 1] == '#';
      } else {
        assert s[j + 1] == comment[..k][j + 1 - |quoted|];
        assert s[j + 1] in comment[..k];
      }
    }
    assert IndexOfSub(s, " #") == at;
  }

  lemma HashIsNoSpace()
    ensures !IsSpace('#')
  {
  }

  /** A leaf line keeps its key and value whatever blanks, quotes and trailing comment it is written
      with. */
  lemma WrittenLeaf(pad: string, key: string, mid: string, open: string, val: string, close: string,
                    comment: string, post: string)
    requires AllBlank(pad) && AllSpace(mid) && AllSpace(post) && PrintableKey(key) && QuotedValue(open, val, close)
    requires IsComment(comment) && (comment != "" ==> !IsSpace(comment[|comment| - 1]))
    ensures Classify(pad + (key + ":" + mid + open + val + close + comment) + post) == Leaf(|pad|, key, val)
  {
    hide IsSpace, IsQuote, Classify, ClassifyTrimmed, ClassifyEntry, Contains, Trim, StripComment, HasPrefix;
    var quoted := open + val + close;
    var tail := mid + quoted + comment;
    var body := key + ":" + tail;
    assert key + ":" + mid + open + val + close + comment == body;
    assert body[0] == key[0] && body[|body| - 1] == tail[|tail| - 1];
    PaddedLine(pad, body, post);
    ColonOfBody(key, tail, |pad|);
    assert tail == mid + (quoted + comment) + "";
    TrimOfPadding(mid, quoted + comment, "", IsSpace);
    WrittenValue(open, val, close, comment);
    EntryIsLeaf(key, quoted + comment, |pad|, val);
  }

  lemma EntryIsLeaf(key: string, rest: string, indent: nat, val: string)
    requires key != "" && rest != "" && rest[0] != '#'
    requires Trim(TrimSpace(StripComment(rest)), IsQuote) == val
    ensures ClassifyEntry(key, rest, indent) == Leaf(indent, key, val)
  {
    hide Trim, StripComment;
  }

  lemma WrittenValue(open: string, val: string, close: string, comment: string)
    requires QuotedValue(open, val, close) && IsComment(comment)
    ensures Trim(TrimSpace(StripComment(open + val + close + comment)), IsQuote) == val
  {
    hide IsSpace, IsQuote, IndexOfSub;
    var quoted := open + val + close;
    if comment == "" {
      assert quoted + comment == quoted;
      TrimTrimmed(quoted, IsSpace);
    } else {
      var k :| 0 < k < |comment| && comment[k] == '#' && comment[k - 1] == ' ' && AllSpace(comment[..k]);
      FirstComment(quoted, comment, k);
      assert forall c :: c in comment[..k - 1] ==> c in comment[..k];
      assert quoted + comment[..k - 1] == "" + quoted + comment[..k - 1];
      TrimOfPadding("", quoted, comment[..k - 1], IsSpace);
    }
    TrimOfPadding(open, val, close, IsQuote);
  }

  /** So does a header line, with a comment directly after its colon or without. */
  lemma WrittenHeader(pad: string, key: string, mid: string, comment: string, post: string)
    requires AllBlank(pad) && AllSpace(mid) && AllSpace(post) && PrintableKey(key)
    requires comment == "" || (comment[0] == '#' && !IsSpace(comment[|comment| - 1]))
    ensures Classify(pad + (key + ":" + (if comment == "" then "" else mid + comment)) + post) == Header(|pad|, key)
  {
    hide IsSpace, Classify, ClassifyTrimmed, ClassifyEntry, Trim;
    var tail := if comment == "" then "" else mid + comment;
    var body := key + ":" + tail;
    HashIsNoSpace();
    ColonIsNoSpace();
    assert body[0] == key[0] && body[|body| - 1] == if tail == "" then ':' else comment[|comment| - 1];
    PaddedLine(pad, body, post);
    ColonOfBody(key, tail, |pad|);
    if comment != "" {
      assert tail == mid + comment + "";
      TrimOfPadding(mid, comment, "", IsSpace);
    } else {
      TrimOfNothing("", IsSpace);
    }
    EntryIsHeader(key, TrimSpace(tail), |pad|);
  }

  lemma EntryIsHeader(key: string, rest: string, indent: nat)
    requires key != "" && (rest == "" || rest[0] == '#')
    ensures ClassifyEntry(key, rest, indent) == Header(indent, key)
  {
  }

  lemma ColonIsNoSpace()
    ensures !IsSpace(':')
  {
  }
}
