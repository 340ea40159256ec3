/** The indentation-stack YAML flattener of the agent's repository inspector. */
module FlattenYaml {
  // services/agent/internal/builder/inspector.go: the loop, the declarative ancestor chain it computes,
  // and what its result holds for every text.

  import opened Text

  /** What one raw line means to the loop. */
  datatype Line =
    | Ignored
    | Separator
    | Header(indent: nat, key: string)
    | Leaf(indent: nat, key: string, val: string)

  /** A header line the loop is still inside. */
  datatype Frame = Frame(indent: nat, key: string)

  predicate IsCr(c: char) { c == '\r' }

  predicate IsBlank(c: char) { c == ' ' || c == '\t' }

  predicate IsQuote(c: char) { c == '"' || c == '\'' }

  function StripComment(s: string): string {
    var j := IndexOfSub(s, " #");
    if j >= 0 then s[..j] else s
  }

  /** The per-line part of the loop body. */
  function Classify(raw: string): Line {
    var line := TrimRight(raw, IsCr);
    ClassifyTrimmed(TrimSpace(line), |line| - |TrimLeft(line, IsBlank)|)
  }

  function ClassifyTrimmed(trimmed: string, indent: nat): Line {
    if trimmed == "" || HasPrefix(trimmed, "#") then Ignored
    else if trimmed == "---" then Separator
    else if HasPrefix(trimmed, "- ") || trimmed == "-" then Ignored
    else
      var colon := IndexOf(trimmed, ':');
      if colon < 0 then Ignored
      else ClassifyEntry(TrimSpace(trimmed[..colon]), TrimSpace(trimmed[colon + 1..]), indent)
  }

  function ClassifyEntry(key: string, rest: string, indent: nat): Line {
    if key == "" then Ignored
    else if rest == "" || HasPrefix(rest, "#") then Header(indent, key)
    else Leaf(indent, key, Trim(TrimSpace(StripComment(rest)), IsQuote))
  }

  function Lines(content: string): seq<Line> {
    Map(Classify, Split(content, '\n'))
  }

  // ---- The loop as a fold over the classified lines ----

  datatype State = State(stack: seq<Frame>, out: map<string, string>)

  const START := State([], map[])

  function Pop(stack: seq<Frame>, indent: nat): (r: seq<Frame>)
    ensures r <= stack
    ensures r != [] ==> r[|r| - 1].indent < indent
  {
    if stack != [] && stack[|stack| - 1].indent >= indent then Pop(stack[..|stack| - 1], indent)
    else stack
  }

  function Keys(stack: seq<Frame>): (r: seq<string>)
    ensures |r| == |stack|
    ensures forall k :: 0 <= k < |stack| ==> r[k] == stack[k].key
  {
    seq(|stack|, k requires 0 <= k < |stack| => stack[k].key)
  }

  function DottedPath(stack: seq<Frame>, key: string): string {
    Join(Keys(stack) + [key], '.')
  }

  function Step(st: State, line: Line): State {
    match line
    case Ignored => st
    case Separator => st.(stack := [])
    case Header(indent, key) => st.(stack := Pop(st.stack, indent) + [Frame(indent, key)])
    case Leaf(indent, key, val) =>
      var stack := Pop(st.stack, indent);
      State(stack, st.out[DottedPath(stack, key) := val])
  }

  function Run(st: State, lines: seq<Line>): State {
    if lines == [] then st
    else Step(Run(st, lines[..|lines| - 1]), lines[|lines| - 1])
  }

  lemma RunExtend(st: State, lines: seq<Line>, i: nat)
    requires i < |lines|
    ensures Run(st, lines[..i + 1]) == Step(Run(st, lines[..i]), lines[i])
  {
    assert lines[..i + 1][..i] == lines[..i];
  }

  /** The flattener itself, in the source's loops. */
  method Flatten(content: string) returns (out: map<string, string>)
    ensures out == Run(START, Lines(content)).out
  {
    out := map[];
    var stack: seq<Frame> := [];
    var raws := Split(content, '\n');
    ghost var lines := Lines(content);
    for i := 0 to |raws|
      invariant State(stack, out) == Run(START, lines[..i])
    {
      RunExtend(START, lines, i);
      match Classify(raws[i]) {
        case Ignored =>
        case Separator =>
          stack := [];
        case Header(indent, key) =>
          stack := PopLoop(stack, indent);
          stack := stack + [Frame(indent, key)];
        case Leaf(indent, key, val) =>
          stack := PopLoop(stack, indent);
          var path := PathLoop(stack, key);
          out := out[path := val];
      }
    }
    assert lines[..|raws|] == lines;
  }

  /** The loop that collects the keys of a leaf's path. */
  method PathLoop(stack: seq<Frame>, key: string) returns (path: string)
    ensures path == DottedPath(stack, key)
  {
    var parts: seq<string> := [];
    for k := 0 to |stack|
      invariant parts == Keys(stack)[..k]
    {
      parts := parts + [stack[k].key];
    }
    assert parts == Keys(stack);
    path := Join(parts + [key], '.');
  }

  /** The inner loop: drop frames that are indented at least as much as the new line. */
  method PopLoop(frames: seq<Frame>, indent: nat) returns (stack: seq<Frame>)
    ensures stack == Pop(frames, indent)
  {
    stack := frames;
    while |stack| > 0 && stack[|stack| - 1].indent >= indent
      invariant Pop(stack, indent) == Pop(frames, indent)
    {
      stack := stack[..|stack| - 1];
    }
  }

  // ---- The declarative reading: which header lines enclose line i ----

  predicate Significant(line: Line) {
    line.Header? || line.Leaf?
  }

  /** Header line `j` encloses position `i`: no document separator lies between, and every
      significant line between is indented more than `j`. */
  ghost predicate Encloses(lines: seq<Line>, j: nat, i: nat)
    requires i <= |lines|
  {
    && j < i && lines[j].Header?
    && forall k :: j < k < i ==>
         !lines[k].Separator? && (Significant(lines[k]) ==> lines[k].indent > lines[j].indent)
  }

  /** The frames of the header lines among the first `n` that enclose position `i`, outermost
      first. */
  ghost function Enclosing(lines: seq<Line>, i: nat, n: nat): seq<Frame>
    requires n <= i <= |lines|
  {
    if n == 0 then []
    else if Encloses(lines, n - 1, i) then Enclosing(lines, i, n - 1) + [FrameOf(lines[n - 1])]
    else Enclosing(lines, i, n - 1)
  }

  function FrameOf(line: Line): Frame
    requires line.Header?
  {
    Frame(line.indent, line.key)
  }

  ghost function StackAt(lines: seq<Line>, i: nat): seq<Frame>
    requires i <= |lines|
  {
    Run(START, lines[..i]).stack
  }

  predicate Increasing(stack: seq<Frame>) {
    forall a, b :: 0 <= a < b < |stack| ==> stack[a].indent < stack[b].indent
  }

  /** Enclosing lines before an enclosing line `m` are indented less than it. */
  lemma {:induction false} EnclosingIncreases(lines: seq<Line>, i: nat, n: nat)
    requires n <= i <= |lines|
    ensures Increasing(Enclosing(lines, i, n))
    ensures forall m: nat, f :: n <= m < i && Encloses(lines, m, i) && f in Enclosing(lines, i, n) ==>
              f.indent < lines[m].indent
  {
    if n > 0 {
      EnclosingIncreases(lines, i, n - 1);
    }
  }

  lemma PopLast(stack: seq<Frame>, f: Frame, d: nat)
    ensures Pop(stack + [f], d) == if f.indent >= d then Pop(stack, d) else stack + [f]
  {
    assert (stack + [f])[..|stack|] == stack;
  }

  /** Below an enclosing line `n`, a larger indent pops nothing. */
  lemma PopKeepsOuter(lines: seq<Line>, i: nat, n: nat, d: nat)
    requires n < i <= |lines| && Encloses(lines, n, i) && lines[n].indent < d
    ensures Pop(Enclosing(lines, i, n), d) == Enclosing(lines, i, n)
  {
    EnclosingIncreases(lines, i, n);
    var outer := Enclosing(lines, i, n);
    assert outer != [] ==> outer[|outer| - 1] in outer;
  }

  /** Passing a significant line keeps the enclosing lines that are indented less than it. */
  lemma EnclosesPast(lines: seq<Line>, j: nat, i: nat)
    requires j < i < |lines| && Significant(lines[i])
    ensures Encloses(lines, j, i + 1)
       <==> Encloses(lines, j, i) && lines[j].indent < lines[i].indent
  {
  }

  /** A line of indent `d` leaves exactly the frames of the enclosing lines below `d`. */
  lemma {:induction false} PopIsFilter(lines: seq<Line>, i: nat, n: nat)
    requires n <= i < |lines| && Significant(lines[i])
    ensures Enclosing(lines, i + 1, n) == Pop(Enclosing(lines, i, n), lines[i].indent)
  {
    if n > 0 {
      PopIsFilter(lines, i, n - 1);
      EnclosesPast(lines, n - 1, i);
      if Encloses(lines, n - 1, i) {
        PopLast(Enclosing(lines, i, n - 1), FrameOf(lines[n - 1]), lines[i].indent);
        if lines[n - 1].indent < lines[i].indent {
          PopKeepsOuter(lines, i, n - 1, lines[i].indent);
        }
      }
    }
  }

  /** A line that is neither significant nor a separator changes no enclosing chain. */
  lemma {:induction false} EnclosingUnchanged(lines: seq<Line>, i: nat, n: nat)
    requires n <= i < |lines| && lines[i].Ignored?
    ensures Enclosing(lines, i + 1, n) == Enclosing(lines, i, n)
  {
    if n > 0 {
      EnclosingUnchanged(lines, i, n - 1);
      assert Encloses(lines, n - 1, i + 1) <==> Encloses(lines, n - 1, i);
    }
  }

  lemma {:induction false} EnclosingCut(lines: seq<Line>, i: nat, n: nat)
    requires n <= i < |lines| && lines[i].Separator?
    ensures Enclosing(lines, i + 1, n) == []
  {
    if n > 0 {
      EnclosingCut(lines, i, n - 1);
      assert !Encloses(lines, n - 1, i + 1);
    }
  }

  /** One line takes the enclosing chain of its position to that of the next. */
  lemma StepKeepsChain(lines: seq<Line>, i: nat, st: State)
    requires i < |lines| && st.stack == Enclosing(lines, i, i)
    ensures Step(st, lines[i]).stack == Enclosing(lines, i + 1, i + 1)
  {
    hide DottedPath;
    match lines[i] {
      case Ignored => EnclosingUnchanged(lines, i, i);
      case Separator => EnclosingCut(lines, i, i);
      case Header(_, _) =>
        PopIsFilter(lines, i, i);
        assert Encloses(lines, i, i + 1);
      case Leaf(_, _, _) => PopIsFilter(lines, i, i);
    }
  }

  /** The stack the loop holds before line `i` is the chain of enclosing header lines, and its
      indents strictly increase. */
  lemma {:induction false} StackIsEnclosingChain(lines: seq<Line>, i: nat)
    requires i <= |lines|
    ensures StackAt(lines, i) == Enclosing(lines, i, i)
    ensures Increasing(StackAt(lines, i))
  {
    hide Encloses;
    EnclosingIncreases(lines, i, i);
    if i > 0 {
      StackIsEnclosingChain(lines, i - 1);
      RunExtend(START, lines, i - 1);
      StepKeepsChain(lines, i - 1, Run(START, lines[..i - 1]));
    }
  }

  /** The path of leaf line `i`: the keys of the lines that enclose the position after it, then
      its own key. */
  ghost function PathOf(lines: seq<Line>, i: nat): string
    requires i < |lines| && lines[i].Leaf?
  {
    DottedPath(Enclosing(lines, i + 1, i), lines[i].key)
  }

  ghost predicate EmitsAt(lines: seq<Line>, i: nat, path: string)
    requires i < |lines|
  {
    lines[i].Leaf? && PathOf(lines, i) == path
  }

  /** The last of the first `n` lines that emits `path`, or -1. */
  ghost function LastEmitter(lines: seq<Line>, n: nat, path: string): (r: int)
    requires n <= |lines|
    ensures -1 <= r < n
    ensures 0 <= r ==> EmitsAt(lines, r, path)
    ensures forall k :: 0 <= k < n && r < k ==> !EmitsAt(lines, k, path)
  {
    if n == 0 then -1
    else if EmitsAt(lines, n - 1, path) then n - 1
    else LastEmitter(lines, n - 1, path)
  }

  /** Processing line `i` writes exactly the path and value `EmitsAt` reads off the lines. */
  lemma StepEmits(lines: seq<Line>, i: nat)
    requires i < |lines|
    ensures var before, after := Run(START, lines[..i]).out, Run(START, lines[..i + 1]).out;
            after == if lines[i].Leaf? then before[PathOf(lines, i) := lines[i].val] else before
  {
    RunExtend(START, lines, i);
    if lines[i].Leaf? {
      StackIsEnclosingChain(lines, i);
      PopIsFilter(lines, i, i);
    }
  }

  lemma {:induction false} OutIsLastEmitter(lines: seq<Line>, n: nat, path: string)
    requires n <= |lines|
    ensures var out, last := Run(START, lines[..n]).out, LastEmitter(lines, n, path);
            (path in out <==> 0 <= last) && (path in out ==> out[path] == lines[last].val)
  {
    if n > 0 {
      OutIsLastEmitter(lines, n - 1, path);
      StepEmits(lines, n - 1);
    }
  }

  /** For every text: a path is in the result exactly when some leaf line has it, and its value
      is that of the last such line. */
  lemma {:induction false} FlattenMeansEnclosingChains(content: string, path: string)
    ensures var lines, out := Lines(content), Run(START, Lines(content)).out;
            var last := LastEmitter(lines, |lines|, path);
            && (path in out <==> exists i :: 0 <= i < |lines| && EmitsAt(lines, i, path))
            && (path in out ==> EmitsAt(lines, last, path) && out[path] == lines[last].val)
  {
    var lines := Lines(content);
    assert lines[..|lines|] == lines;
    OutIsLastEmitter(lines, |lines|, path);
  }
}
