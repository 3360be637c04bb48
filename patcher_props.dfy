/** What the patcher promises: which lines survive and in what order, the
    separator rule, the shape of the appended block, idempotence and
    isolation of everything outside this namespace's markers. */
module PatcherProps {
  import opened PyStr
  import opened Patcher

  // ---------------------------------------------------------------------
  // Reference definitions, independent of the scan's state machine

  /** A raw line opens a dropped region: its right-stripped text contains
      the begin marker (a line holding both markers counts as a begin). */
  predicate Opens(raw: string, begin: string) {
    Contains(RStrip(raw), begin)
  }

  /** A raw line closes a dropped region: it contains the end marker and
      not the begin marker. */
  predicate Closes(raw: string, begin: string, end: string) {
    !Contains(RStrip(raw), begin) && Contains(RStrip(raw), end)
  }

  /** A raw line mentions neither marker. */
  predicate MarkerFree(raw: string, begin: string, end: string) {
    !Contains(RStrip(raw), begin) && !Contains(RStrip(raw), end)
  }

  /** Line `k` lies in a dropped region: some earlier line opened one and
      no line after it and before `k` closed it. */
  predicate InsideAt(lines: seq<string>, k: int, begin: string, end: string)
    requires k <= |lines|
  {
    exists j | 0 <= j < k ::
      Opens(lines[j], begin) && forall m | j < m < k :: !Closes(lines[m], begin, end)
  }

  /** Line `k` survives: it mentions neither marker and is not in a dropped
      region. */
  predicate Survives(lines: seq<string>, k: int, begin: string, end: string)
    requires 0 <= k < |lines|
  {
    MarkerFree(lines[k], begin, end) && !InsideAt(lines, k, begin, end)
  }

  /** The surviving lines among the first `n`, right-stripped, in order. */
  function Survivors(lines: seq<string>, n: nat, begin: string, end: string): seq<string>
    requires n <= |lines|
  {
    if n == 0 then []
    else
      Survivors(lines, n - 1, begin, end) +
      (if Survives(lines, n - 1, begin, end) then [RStrip(lines[n - 1])] else [])
  }

  /** `[l.rstrip() for l in lines]`. */
  function RStripAll(lines: seq<string>): (r: seq<string>)
    ensures |r| == |lines| && forall i | 0 <= i < |lines| :: r[i] == RStrip(lines[i])
  {
    if lines == [] then []
    else RStripAll(lines[..|lines| - 1]) + [RStrip(lines[|lines| - 1])]
  }

  /** Number of lines containing `marker`. */
  function CountContaining(lines: seq<string>, marker: string): nat {
    if lines == [] then 0
    else (if Contains(lines[0], marker) then 1 else 0) + CountContaining(lines[1..], marker)
  }

  /** A kept line as the scan emits it: already right-stripped and free of
      both markers. */
  predicate Clean(line: string, begin: string, end: string) {
    RStrip(line) == line && !Contains(line, begin) && !Contains(line, end)
  }

  /** The block's lines between its two markers. */
  function BlockBody(r: Rule): seq<string> {
    RenderBlock(r)[1..12]
  }

  /** No body line of the block contains either marker of its namespace. */
  predicate BodyClean(r: Rule) {
    forall l | l in BlockBody(r) ::
      !Contains(l, SectionBegin(r.namespace)) && !Contains(l, SectionEnd(r.namespace))
  }

  /** The rendered block is read back as itself: none of its lines holds a
      line boundary and no body line contains a marker. */
  predicate WellFormedRule(r: Rule) {
    (forall l | l in RenderBlock(r) :: NoLineBreaks(l)) && BodyClean(r)
  }

  predicate HashFree(s: string) {
    forall i | 0 <= i < |s| :: s[i] != '#'
  }

  /** Text that can neither break a line nor contain a marker. */
  predicate Plain(s: string) {
    NoLineBreaks(s) && HashFree(s)
  }

  // ---------------------------------------------------------------------
  // The markers

  /** Each marker is right-strip-stable and contains itself; neither
      contains the other, so an end line never reads as a begin line and
      the begin line never reads as an end line. */
  lemma MarkersDistinct(namespace: string)
    ensures RStrip(SectionBegin(namespace)) == SectionBegin(namespace)
    ensures RStrip(SectionEnd(namespace)) == SectionEnd(namespace)
    ensures Contains(SectionBegin(namespace), SectionBegin(namespace))
    ensures Contains(SectionEnd(namespace), SectionEnd(namespace))
    ensures !Contains(SectionEnd(namespace), SectionBegin(namespace))
    ensures !Contains(SectionBegin(namespace), SectionEnd(namespace))
  {
    var b, e := SectionBegin(namespace), SectionEnd(namespace);
    assert OccursAt(b, b, 0) && OccursAt(e, e, 0);
    assert |b| == |e| + 2;
    var q := 19 + |namespace| + 1;
    forall i | 0 <= i <= 2 ensures !OccursAt(b, e, i) {
      if i == 0 {
        assert b[q] == 'b' && e[q] == 'e';
        assert b[i..i + |e|][q] != e[q];
      } else {
        assert b[i..i + |e|][0] != e[0];
      }
    }
  }

  // ---------------------------------------------------------------------
  // The scan

  /** One step of the scan either keeps the right-stripped line or keeps
      nothing; it keeps the line exactly when it is outside a region and
      the line mentions neither marker; afterwards it is inside a region
      exactly when the line holds the begin marker, or it was inside and
      the line holds no end marker. */
  lemma StepCases(st: ScanState, raw: string, begin: string, end: string)
    ensures var next := Step(st, raw, begin, end);
      (next.kept == st.kept || next.kept == st.kept + [RStrip(raw)]) &&
      (next.kept != st.kept <==> !st.inside && MarkerFree(raw, begin, end)) &&
      (next.inside <==> Opens(raw, begin) || (st.inside && !Closes(raw, begin, end)))
  {
  }

  /** Scanning a concatenation is scanning the second part from the state
      the first part left. */
  lemma {:induction false} RunAppend(st: ScanState, xs: seq<string>, ys: seq<string>, begin: string, end: string)
    ensures Run(st, xs + ys, begin, end) == Run(Run(st, xs, begin, end), ys, begin, end)
    decreases |ys|
  {
    if ys == [] {
      assert xs + ys == xs;
    } else {
      var zs := xs + ys;
      assert zs[..|zs| - 1] == xs + ys[..|ys| - 1];
      assert zs[|zs| - 1] == ys[|ys| - 1];
      RunAppend(st, xs, ys[..|ys| - 1], begin, end);
    }
  }

  /** What the scan has kept never influences what it does next: it only
      appends. */
  lemma {:induction false} RunOnlyAppends(kept: seq<string>, inside: bool, lines: seq<string>, begin: string, end: string)
    ensures Run(ScanState(kept, inside), lines, begin, end) ==
      var alone := Run(ScanState([], inside), lines, begin, end);
      ScanState(kept + alone.kept, alone.inside)
    decreases |lines|
  {
    if lines != [] {
      var init, last := lines[..|lines| - 1], lines[|lines| - 1];
      RunOnlyAppends(kept, inside, init, begin, end);
      var alone := Run(ScanState([], inside), init, begin, end);
      assert kept + (alone.kept + [RStrip(last)]) == (kept + alone.kept) + [RStrip(last)];
    }
  }

  /** Inside a dropped region, lines that do not close it are all dropped
      and the region stays open. */
  lemma {:induction false} StaysInside(kept: seq<string>, lines: seq<string>, begin: string, end: string)
    requires forall l | l in lines :: !Closes(l, begin, end)
    ensures Run(ScanState(kept, true), lines, begin, end) == ScanState(kept, true)
    decreases |lines|
  {
    if lines != [] {
      var init, last := lines[..|lines| - 1], lines[|lines| - 1];
      assert forall l | l in init :: l in lines;
      assert last in lines;
      StaysInside(kept, init, begin, end);
    }
  }

  /** Outside a region, lines mentioning neither marker are all kept,
      right-stripped, in order, and the scan stays outside. */
  lemma {:induction false} MarkerFreeKept(st: ScanState, lines: seq<string>, begin: string, end: string)
    requires !st.inside
    requires forall l | l in lines :: MarkerFree(l, begin, end)
    ensures Run(st, lines, begin, end) == ScanState(st.kept + RStripAll(lines), false)
    decreases |lines|
  {
    if lines != [] {
      var init, last := lines[..|lines| - 1], lines[|lines| - 1];
      assert forall l | l in init :: l in lines;
      assert last in lines;
      MarkerFreeKept(st, init, begin, end);
      assert (st.kept + RStripAll(init)) + [RStrip(last)] == st.kept + RStripAll(lines);
    }
  }

  /** A region that line `n - 1` lies in and does not close goes on. */
  lemma InsideAtExtend(lines: seq<string>, n: nat, begin: string, end: string)
    requires 0 < n <= |lines|
    requires InsideAt(lines, n - 1, begin, end) && !Closes(lines[n - 1], begin, end)
    ensures InsideAt(lines, n, begin, end)
  {
    var j :| 0 <= j < n - 1 && Opens(lines[j], begin) && forall m | j < m < n - 1 :: !Closes(lines[m], begin, end);
    assert forall m | j < m < n :: !Closes(lines[m], begin, end);
  }

  /** A region that line `n` lies in was not opened by line `n - 1` only
      if it already held at line `n - 1` and was not closed there. */
  lemma InsideAtShrink(lines: seq<string>, n: nat, begin: string, end: string)
    requires 0 < n <= |lines|
    requires InsideAt(lines, n, begin, end) && !Opens(lines[n - 1], begin)
    ensures !Closes(lines[n - 1], begin, end) && InsideAt(lines, n - 1, begin, end)
  {
    var j :| 0 <= j < n && Opens(lines[j], begin) && forall m | j < m < n :: !Closes(lines[m], begin, end);
    assert j < n - 1;
    assert forall m | j < m < n - 1 :: !Closes(lines[m], begin, end);
  }

  /** The reference definition, one line at a time: line `n` lies in a
      region exactly when line `n - 1` opens one, or lies in one and does
      not close it. */
  lemma InsideAtStep(lines: seq<string>, n: nat, begin: string, end: string)
    requires 0 < n <= |lines|
    ensures InsideAt(lines, n, begin, end) <==>
      Opens(lines[n - 1], begin) ||
      (!Closes(lines[n - 1], begin, end) && InsideAt(lines, n - 1, begin, end))
  {
    if Opens(lines[n - 1], begin) {
      assert InsideAt(lines, n, begin, end);
    } else if InsideAt(lines, n, begin, end) {
      InsideAtShrink(lines, n, begin, end);
    } else if InsideAt(lines, n - 1, begin, end) && !Closes(lines[n - 1], begin, end) {
      InsideAtExtend(lines, n, begin, end);
    }
  }

  /** The scan agrees with the reference definition: after the first `n`
      lines it is inside a region exactly when line `n` lies in one, and it
      has kept exactly the surviving lines, right-stripped, in order. */
  lemma {:induction false} ScanMatchesSurvivors(lines: seq<string>, n: nat, begin: string, end: string)
    requires n <= |lines|
    ensures Run(Outside, lines[..n], begin, end).inside == InsideAt(lines, n, begin, end)
    ensures Run(Outside, lines[..n], begin, end).kept == Survivors(lines, n, begin, end)
  {
    if n == 0 {
      assert lines[..0] == [];
    } else {
      ScanMatchesSurvivors(lines, n - 1, begin, end);
      InsideAtStep(lines, n, begin, end);
      var st := Run(Outside, lines[..n - 1], begin, end);
      var raw := lines[n - 1];
      assert lines[..n][..n - 1] == lines[..n - 1];
      assert Run(Outside, lines[..n], begin, end) == Step(st, raw, begin, end);
      StepCases(st, raw, begin, end);
      assert Survives(lines, n - 1, begin, end) <==> MarkerFree(raw, begin, end) && !st.inside;
    }
  }

  /** A begin line with no end line after it drops the rest of the
      document: what was kept before it is all that is kept. */
  lemma UnclosedRegionDropsRest(lines: seq<string>, j: nat, begin: string, end: string)
    requires j < |lines| && Opens(lines[j], begin)
    requires forall m | j < m < |lines| :: !Closes(lines[m], begin, end)
    ensures Run(Outside, lines, begin, end) == ScanState(Run(Outside, lines[..j], begin, end).kept, true)
  {
    var rest := lines[j + 1..];
    assert lines == lines[..j] + [lines[j]] + rest;
    RunAppend(Outside, lines[..j] + [lines[j]], rest, begin, end);
    RunAppend(Outside, lines[..j], [lines[j]], begin, end);
    forall l | l in rest ensures !Closes(l, begin, end) {
      var m :| 0 <= m < |rest| && rest[m] == l;
      assert l == lines[j + 1 + m];
    }
    StaysInside(Run(Outside, lines[..j], begin, end).kept, rest, begin, end);
  }

  /** Every line the scan keeps is right-stripped and mentions neither
      marker; if the input lines have no line boundaries, neither do the
      kept ones. */
  lemma {:induction false} KeptLinesClean(st: ScanState, lines: seq<string>, begin: string, end: string)
    requires forall x | x in st.kept :: Clean(x, begin, end)
    ensures forall x | x in Run(st, lines, begin, end).kept :: Clean(x, begin, end)
    ensures (forall x | x in st.kept :: NoLineBreaks(x)) && (forall l | l in lines :: NoLineBreaks(l)) ==>
      forall x | x in Run(st, lines, begin, end).kept :: NoLineBreaks(x)
    decreases |lines|
  {
    if lines != [] {
      var init, last := lines[..|lines| - 1], lines[|lines| - 1];
      KeptLinesClean(st, init, begin, end);
      RStripIdempotent(last);
      if forall l | l in lines :: NoLineBreaks(l) {
        assert last in lines;
        RStripNoLineBreaks(last);
        assert forall l | l in init :: l in lines;
      }
    }
  }

  /** Document level: no kept line contains either marker of the
      namespace, every kept line is right-stripped, and none holds a line
      boundary. */
  lemma KeptLinesMarkerFree(current: string, namespace: string)
    ensures forall x | x in Kept(SplitLines(current), namespace) ::
      Clean(x, SectionBegin(namespace), SectionEnd(namespace)) && NoLineBreaks(x)
  {
    KeptLinesClean(Outside, SplitLines(current), SectionBegin(namespace), SectionEnd(namespace));
  }

  /** Isolation: a run of lines that mentions neither of this namespace's
      markers (another namespace's block, say) and does not start inside
      one of its regions comes through right-stripped, in order and
      contiguous, and does not disturb how the rest is treated. */
  lemma Isolation(prefix: seq<string>, other: seq<string>, suffix: seq<string>, namespace: string)
    requires !Run(Outside, prefix, SectionBegin(namespace), SectionEnd(namespace)).inside
    requires forall l | l in other :: MarkerFree(l, SectionBegin(namespace), SectionEnd(namespace))
    ensures Kept(prefix + other + suffix, namespace) ==
      Kept(prefix, namespace) + RStripAll(other) + Kept(suffix, namespace)
  {
    var b, e := SectionBegin(namespace), SectionEnd(namespace);
    RunAppend(Outside, prefix + other, suffix, b, e);
    RunAppend(Outside, prefix, other, b, e);
    var p := Run(Outside, prefix, b, e);
    MarkerFreeKept(p, other, b, e);
    RunOnlyAppends(p.kept + RStripAll(other), false, suffix, b, e);
  }

  // ---------------------------------------------------------------------
  // Separator and block

  /** A blank separator line is inserted exactly when the kept part is
      non-empty and its last line is not empty; nothing is inserted
      otherwise. */
  lemma SeparatorInserted(current: string, namespace: string)
    ensures var kept := Kept(SplitLines(current), namespace);
      Separator(kept) == if kept != [] && kept[|kept| - 1] != [] then [""] else []
  {
    var kept := Kept(SplitLines(current), namespace);
    KeptLinesMarkerFree(current, namespace);
    if kept != [] {
      assert kept[|kept| - 1] in kept;
      RStrippedBlankIffEmpty(kept[|kept| - 1]);
    }
  }

  /** The two templates differ only in the bind line, whose interface
      placeholder is `{{.ApisvrFrontIF}}` for the "management" address type
      and `{{.TraefikFrontIF}}` for any other. */
  lemma TemplatesDifferOnlyInBind(r: Rule, other: string)
    ensures var a, o := RenderBlock(r), RenderBlock(r.(addressType := other));
      a[..2] == o[..2] && a[3..] == o[3..]
    ensures RenderBlock(r)[2] ==
      "    bind " + r.frontIp + ":" + DecimalString(r.frontPort) + " interface " +
      (if r.addressType == "management" then "{{.ApisvrFrontIF}}" else "{{.TraefikFrontIF}}")
  {
  }

  /** The patched document is the kept part and separator followed by the
      rendered block: its last thirteen lines are the block, and as text it
      ends with the block joined by newlines. */
  lemma PatchEndsWithBlock(current: string, r: Rule)
    ensures var p := PatchedLines(current, r);
      |p| >= 13 && p[|p| - 13..] == RenderBlock(r)
    ensures var kept := Kept(SplitLines(current), r.namespace);
      var head := kept + Separator(kept);
      Patch(current, r) == if head == [] then Join(RenderBlock(r)) else Join(head) + "\n" + Join(RenderBlock(r))
  {
    var kept := Kept(SplitLines(current), r.namespace);
    JoinAppend(kept + Separator(kept), RenderBlock(r));
  }

  lemma {:induction false} PlainAppend(a: string, b: string)
    requires Plain(a) && Plain(b)
    ensures Plain(a + b)
  {
    assert forall i | 0 <= i < |a + b| :: (a + b)[i] == if i < |a| then a[i] else b[i - |a|];
  }

  lemma DecimalStringPlain(n: int)
    ensures Plain(DecimalString(n))
  {
    var s := DecimalString(n);
    assert forall i | 0 <= i < |s| :: s[i] in s;
  }

  lemma HashFreeHasNoMarker(line: string, namespace: string)
    requires HashFree(line)
    ensures !Contains(line, SectionBegin(namespace)) && !Contains(line, SectionEnd(namespace))
  {
    if Contains(line, SectionBegin(namespace)) {
      ContainsChar(line, SectionBegin(namespace), 0);
    }
    if Contains(line, SectionEnd(namespace)) {
      ContainsChar(line, SectionEnd(namespace), 0);
    }
  }

  lemma FrontendTextPlain()
    ensures Plain("frontend ") && Plain("_datamate_frontend") && Plain("    bind ") && Plain(":")
    ensures Plain(" interface ") && Plain("{{.ApisvrFrontIF}}") && Plain("{{.TraefikFrontIF}}")
  {
  }

  lemma BackendTextPlain()
    ensures Plain("    default_backend   ") && Plain("_datamate_backend")
    ensures Plain("    maxconn {{.ApisvrFrontMaxConn}}") && Plain("    mode tcp")
  {
  }

  lemma ServerTextPlain()
    ensures Plain("backend ") && Plain("    balance   roundrobin") && Plain("    server app0 ") && Plain("")
  {
  }

  lemma DefaultServerTextPlain()
    ensures Plain("    default-server inter 2s") && Plain(" downinter 5s rise 2 fall 2")
  {
  }

  lemma DefaultServerTailPlain()
    ensures Plain(" slowstart 60s maxconn 2000 maxqueue") && Plain(" 200 weight 100")
  {
  }

  lemma MarkerTextNoLineBreaks()
    ensures NoLineBreaks("# section-datamate-") && NoLineBreaks("-begin") && NoLineBreaks("-end")
  {
  }

  /** Arguments free of line boundaries and of `#` (which starts both
      markers) give a well-formed rule. */
  lemma PlainArgumentsWellFormed(r: Rule)
    requires Plain(r.namespace) && Plain(r.frontIp) && Plain(r.backendIp)
    ensures WellFormedRule(r)
  {
    var ns := r.namespace;
    var block := RenderBlock(r);
    FrontendTextPlain();
    BackendTextPlain();
    ServerTextPlain();
    DefaultServerTextPlain();
    DefaultServerTailPlain();
    MarkerTextNoLineBreaks();
    DecimalStringPlain(r.frontPort);
    DecimalStringPlain(r.backendPort);
    PlainAppend("frontend ", ns);
    PlainAppend("frontend " + ns, "_datamate_frontend");
    PlainAppend("    bind ", r.frontIp);
    PlainAppend("    bind " + r.frontIp, ":");
    PlainAppend("    bind " + r.frontIp + ":", DecimalString(r.frontPort));
    PlainAppend("    bind " + r.frontIp + ":" + DecimalString(r.frontPort), " interface ");
    PlainAppend("    bind " + r.frontIp + ":" + DecimalString(r.frontPort) + " interface ", FrontInterface(r.addressType));
    PlainAppend("    default_backend   ", ns);
    PlainAppend("    default_backend   " + ns, "_datamate_backend");
    PlainAppend("backend ", ns);
    PlainAppend("backend " + ns, "_datamate_backend");
    PlainAppend("    default-server inter 2s", " downinter 5s rise 2 fall 2");
    PlainAppend("    default-server inter 2s" + " downinter 5s rise 2 fall 2", " slowstart 60s maxconn 2000 maxqueue");
    PlainAppend("    default-server inter 2s" + " downinter 5s rise 2 fall 2" + " slowstart 60s maxconn 2000 maxqueue", " 200 weight 100");
    PlainAppend("    server app0 ", r.backendIp);
    PlainAppend("    server app0 " + r.backendIp, ":");
    PlainAppend("    server app0 " + r.backendIp + ":", DecimalString(r.backendPort));
    assert forall i | 1 <= i < 12 :: Plain(block[i]);
    forall l | l in BlockBody(r) ensures !Contains(l, SectionBegin(ns)) && !Contains(l, SectionEnd(ns)) {
      HashFreeHasNoMarker(l, ns);
    }
    assert NoLineBreaks(block[0]) && NoLineBreaks(block[12]) by {
      assert forall i | 0 <= i < |ns| :: !IsLineBreak(ns[i]);
    }
  }

  /** A sequence of at least two elements is its first element, its
      middle and its last element. */
  lemma SplitEnds<T>(xs: seq<T>)
    requires |xs| >= 2
    ensures xs == [xs[0]] + xs[1..|xs| - 1] + [xs[|xs| - 1]]
  {
  }

  /** Scanning the rendered block from any state keeps nothing and leaves
      the scan outside a region. */
  lemma BlockScan(kept: seq<string>, inside: bool, r: Rule)
    requires BodyClean(r)
    ensures Run(ScanState(kept, inside), RenderBlock(r), SectionBegin(r.namespace), SectionEnd(r.namespace))
      == ScanState(kept, false)
  {
    var b, e := SectionBegin(r.namespace), SectionEnd(r.namespace);
    var block := RenderBlock(r);
    MarkersDistinct(r.namespace);
    SplitEnds(block);
    RunAppend(ScanState(kept, inside), [block[0]] + BlockBody(r), [block[12]], b, e);
    RunAppend(ScanState(kept, inside), [block[0]], BlockBody(r), b, e);
    assert Run(ScanState(kept, inside), [block[0]], b, e) == ScanState(kept, true);
    forall l | l in BlockBody(r) ensures !Closes(l, b, e) {
      if Contains(RStrip(l), e) {
        ContainsFromPrefix(l, RStrip(l), e);
      }
    }
    StaysInside(kept, BlockBody(r), b, e);
  }

  // ---------------------------------------------------------------------
  // Properties of the whole patch

  /** Splitting the patched text gives back exactly the patched lines. */
  lemma PatchRoundTrip(current: string, r: Rule)
    requires WellFormedRule(r)
    ensures SplitLines(Patch(current, r)) == PatchedLines(current, r)
  {
    var kept := Kept(SplitLines(current), r.namespace);
    var p := PatchedLines(current, r);
    KeptLinesMarkerFree(current, r.namespace);
    MarkersDistinct(r.namespace);
    assert p[|p| - 1] == SectionEnd(r.namespace);
    assert NoLineBreaks("");
    SplitJoinRoundTrip(p);
  }

  /** Lines that are right-stripped and marker-free, followed by lines
      the scan drops without leaving a region open, are kept as they are. */
  lemma CleanHeadSurvivesRescan(head: seq<string>, tail: seq<string>, begin: string, end: string)
    requires forall l | l in head :: MarkerFree(l, begin, end) && RStrip(l) == l
    requires Run(ScanState(head, false), tail, begin, end) == ScanState(head, false)
    ensures Run(Outside, head + tail, begin, end) == ScanState(head, false)
  {
    MarkerFreeKept(Outside, head, begin, end);
    assert RStripAll(head) == head;
    assert Outside.kept + head == head;
    RunAppend(Outside, head, tail, begin, end);
  }

  /** Scanning the patched lines again keeps exactly the kept part and
      the separator: both come through unchanged and the block is dropped. */
  lemma RescanPatchedLines(current: string, r: Rule)
    requires WellFormedRule(r)
    ensures var kept := Kept(SplitLines(current), r.namespace);
      Kept(PatchedLines(current, r), r.namespace) == kept + Separator(kept)
  {
    var b, e := SectionBegin(r.namespace), SectionEnd(r.namespace);
    var kept := Kept(SplitLines(current), r.namespace);
    var head := kept + Separator(kept);
    KeptLinesMarkerFree(current, r.namespace);
    assert forall l | l in head :: MarkerFree(l, b, e) && RStrip(l) == l by {
      assert !Contains("", b) && !Contains("", e);
      assert forall l | l in head :: l in kept || l == "";
    }
    BlockScan(head, false, r);
    CleanHeadSurvivesRescan(head, RenderBlock(r), b, e);
  }

  /** Once the separator is added, no second one is needed. */
  lemma SeparatorSettles(kept: seq<string>)
    ensures Separator(kept + Separator(kept)) == []
  {
    if Separator(kept) == [""] {
      assert (kept + [""])[|kept|] == "";
    } else {
      assert kept + [] == kept;
    }
  }

  /** A text that reads back as a kept part already carrying its
      separator, followed by a block the scan drops, is patched into the
      same lines. */
  lemma RepatchFrom(text: string, kept: seq<string>, block: seq<string>, namespace: string)
    requires SplitLines(text) == kept + Separator(kept) + block
    requires Kept(kept + Separator(kept) + block, namespace) == kept + Separator(kept)
    ensures var again := Kept(SplitLines(text), namespace);
      again + Separator(again) + block == kept + Separator(kept) + block
  {
    SeparatorSettles(kept);
    assert kept + Separator(kept) + [] == kept + Separator(kept);
  }

  /** Reading the patched text back and patching it again produces the
      same lines. */
  lemma RepatchSameLines(current: string, r: Rule)
    requires WellFormedRule(r)
    ensures PatchedLines(Patch(current, r), r) == PatchedLines(current, r)
  {
    var kept := Kept(SplitLines(current), r.namespace);
    PatchRoundTrip(current, r);
    RescanPatchedLines(current, r);
    RepatchFrom(Patch(current, r), kept, RenderBlock(r), r.namespace);
  }

  /** Idempotence: patching the patched text again with the same rule gives
      the same text. */
  lemma Idempotent(current: string, r: Rule)
    requires WellFormedRule(r)
    ensures Patch(Patch(current, r), r) == Patch(current, r)
  {
    RepatchSameLines(current, r);
  }

  lemma {:induction false} CountAppend(xs: seq<string>, ys: seq<string>, marker: string)
    ensures CountContaining(xs + ys, marker) == CountContaining(xs, marker) + CountContaining(ys, marker)
    decreases |xs|
  {
    if xs == [] {
      assert xs + ys == ys;
    } else {
      assert (xs + ys)[1..] == xs[1..] + ys;
      CountAppend(xs[1..], ys, marker);
    }
  }

  lemma {:induction false} CountNone(lines: seq<string>, marker: string)
    requires forall l | l in lines :: !Contains(l, marker)
    ensures CountContaining(lines, marker) == 0
    decreases |lines|
  {
    if lines != [] {
      assert lines[0] in lines;
      assert forall l | l in lines[1..] :: l in lines;
      CountNone(lines[1..], marker);
    }
  }

  /** Lines free of both markers, then a begin line, lines free of both
      markers and an end line hold one line of each marker. */
  lemma OneOfEach(head: seq<string>, first: string, body: seq<string>, last: string, begin: string, end: string)
    requires forall l | l in head :: !Contains(l, begin) && !Contains(l, end)
    requires forall l | l in body :: !Contains(l, begin) && !Contains(l, end)
    requires Contains(first, begin) && !Contains(first, end)
    requires Contains(last, end) && !Contains(last, begin)
    ensures CountContaining(head + ([first] + body + [last]), begin) == 1
    ensures CountContaining(head + ([first] + body + [last]), end) == 1
  {
    CountNone(head, begin);
    CountNone(head, end);
    CountNone(body, begin);
    CountNone(body, end);
    CountAppend(head, [first] + body + [last], begin);
    CountAppend(head, [first] + body + [last], end);
    CountAppend([first] + body, [last], begin);
    CountAppend([first] + body, [last], end);
    CountAppend([first], body, begin);
    CountAppend([first], body, end);
  }

  /** The patched text holds exactly one line containing the namespace's
      begin marker and exactly one containing its end marker. */
  lemma ExactlyOneBlock(current: string, r: Rule)
    requires WellFormedRule(r)
    ensures CountContaining(SplitLines(Patch(current, r)), SectionBegin(r.namespace)) == 1
    ensures CountContaining(SplitLines(Patch(current, r)), SectionEnd(r.namespace)) == 1
  {
    var b, e := SectionBegin(r.namespace), SectionEnd(r.namespace);
    var kept := Kept(SplitLines(current), r.namespace);
    var head := kept + Separator(kept);
    var block := RenderBlock(r);
    PatchRoundTrip(current, r);
    KeptLinesMarkerFree(current, r.namespace);
    MarkersDistinct(r.namespace);
    assert forall l | l in head :: !Contains(l, b) && !Contains(l, e) by {
      assert !Contains("", b) && !Contains("", e);
      assert forall l | l in head :: l in kept || l == "";
    }
    SplitEnds(block);
    OneOfEach(head, block[0], BlockBody(r), block[12], b, e);
  }

  /** One line, as the scan treats it from a given state: a clean line
      outside a region is kept, a begin line opens a region and an end line
      (without a begin marker) closes it. */
  lemma ScanOne(st: ScanState, x: string, begin: string, end: string)
    ensures Contains(RStrip(x), begin) ==> Run(st, [x], begin, end) == ScanState(st.kept, true)
    ensures !Contains(RStrip(x), begin) && Contains(RStrip(x), end) ==>
      Run(st, [x], begin, end) == ScanState(st.kept, false)
    ensures !st.inside && RStrip(x) == x && !Contains(x, begin) && !Contains(x, end) ==>
      Run(st, [x], begin, end) == ScanState(st.kept + [x], false)
  {
    assert [x][..0] == [];
  }

  /** A line shorter than the markers mentions neither of them. */
  lemma ShortLineMarkerFree(x: string, namespace: string)
    requires |x| < 19
    ensures !Contains(x, SectionBegin(namespace)) && !Contains(x, SectionEnd(namespace))
    ensures !Contains(RStrip(x), SectionBegin(namespace)) && !Contains(RStrip(x), SectionEnd(namespace))
  {
  }

  /** Isolation needs its premise: markers are matched as substrings, so
      the block of namespace `ns + "-begin"` (`ns` a prefix of it) reads as
      a begin of `ns`'s own region, both at its begin line and at its end
      line. Patching `ns` then drops that other block and everything after
      it up to a line with `ns`'s end marker, here the rest of the
      document. */
  lemma OtherBlockSwallowed(namespace: string)
    ensures var other := namespace + "-begin";
      Kept(["keep", SectionBegin(other), "body", SectionEnd(other), "tail"], namespace) == ["keep"]
  {
    var b, e := SectionBegin(namespace), SectionEnd(namespace);
    var other := namespace + "-begin";
    var ob, oe := SectionBegin(other), SectionEnd(other);
    BeginSuffixedMarkers(namespace);
    assert RStrip("keep") == "keep";
    ShortLineMarkerFree("keep", namespace);
    ShortLineMarkerFree("body", namespace);
    ShortLineMarkerFree("tail", namespace);
    ScanOne(Outside, "keep", b, e);
    ScanOne(ScanState(["keep"], false), ob, b, e);
    var lines := ["keep", ob, "body", oe, "tail"];
    var rest := ["body", oe, "tail"];
    assert lines == ["keep"] + [ob] + rest;
    RunAppend(Outside, ["keep"] + [ob], rest, b, e);
    RunAppend(Outside, ["keep"], [ob], b, e);
    assert Contains(RStrip(ob), b);
    assert Run(Outside, ["keep"] + [ob], b, e) == ScanState(["keep"], true);
    forall l | l in rest ensures !Closes(l, b, e) {
      assert l == "body" || l == oe || l == "tail";
    }
    StaysInside(["keep"], rest, b, e);
  }

  /** Both marker lines of namespace `ns + "-begin"` open a region of
      `ns`. */
  lemma BeginSuffixedMarkers(namespace: string)
    ensures var b := SectionBegin(namespace);
      var ob, oe := SectionBegin(namespace + "-begin"), SectionEnd(namespace + "-begin");
      Opens(ob, b) && Opens(oe, b) && !Closes(oe, b, SectionEnd(namespace))
  {
    var b := SectionBegin(namespace);
    var ob, oe := SectionBegin(namespace + "-begin"), SectionEnd(namespace + "-begin");
    assert OccursAt(ob, b, 0) && OccursAt(oe, b, 0) by {
      assert ob[..|b|] == b && oe[..|b|] == b;
    }
    MarkersDistinct(namespace + "-begin");
  }

  /** The marker lines of namespace `ns + "-end"` both contain `ns`'s end
      marker and neither contains `ns`'s begin marker. */
  lemma EndSuffixedMarkers(namespace: string)
    ensures var b, e := SectionBegin(namespace), SectionEnd(namespace);
      var ob, oe := SectionBegin(namespace + "-end"), SectionEnd(namespace + "-end");
      Contains(ob, e) && Contains(oe, e) && !Contains(ob, b) && !Contains(oe, b)
  {
    var b, e := SectionBegin(namespace), SectionEnd(namespace);
    var ob, oe := SectionBegin(namespace + "-end"), SectionEnd(namespace + "-end");
    assert ob[..|e|] == e && oe[..|e|] == e;
    assert OccursAt(ob, e, 0) && OccursAt(oe, e, 0);
    var q := 19 + |namespace| + 1;
    assert |ob| == |b| + 4 && |oe| == |b| + 2;
    forall i | 0 <= i <= 4 ensures !OccursAt(ob, b, i) {
      if i == 0 {
        assert ob[q] == 'e' && b[q] == 'b';
        assert ob[i..i + |b|][q] != b[q];
      } else {
        assert ob[i..i + |b|][0] != b[0];
      }
    }
    forall i | 0 <= i <= 2 ensures !OccursAt(oe, b, i) {
      if i == 0 {
        assert oe[q] == 'e' && b[q] == 'b';
        assert oe[i..i + |b|][q] != b[q];
      } else {
        assert oe[i..i + |b|][0] != b[0];
      }
    }
  }

  /** The other way round: both marker lines of namespace `ns + "-end"`
      read as `ns`'s end marker, so patching `ns` deletes them even outside
      a region and keeps that block's body as unmarked lines. A later patch
      of `ns + "-end"` then no longer finds its old block and appends a
      second one. */
  lemma OtherMarkersStripped(namespace: string)
    ensures var other := namespace + "-end";
      Kept(["keep", SectionBegin(other), "body", SectionEnd(other), "tail"], namespace) == ["keep", "body", "tail"]
  {
    var b, e := SectionBegin(namespace), SectionEnd(namespace);
    var other := namespace + "-end";
    var ob, oe := SectionBegin(other), SectionEnd(other);
    EndSuffixedMarkers(namespace);
    MarkersDistinct(other);
    assert RStrip("keep") == "keep" && RStrip("body") == "body" && RStrip("tail") == "tail";
    ShortLineMarkerFree("keep", namespace);
    ShortLineMarkerFree("body", namespace);
    ShortLineMarkerFree("tail", namespace);
    var s1 := ScanState(["keep"], false);
    var s2 := ScanState(["keep", "body"], false);
    ScanOne(Outside, "keep", b, e);
    ScanOne(s1, ob, b, e);
    ScanOne(s1, "body", b, e);
    ScanOne(s2, oe, b, e);
    ScanOne(s2, "tail", b, e);
    var lines := ["keep", ob, "body", oe, "tail"];
    assert lines == ["keep"] + [ob] + ["body"] + [oe] + ["tail"];
    RunAppend(Outside, ["keep"] + [ob] + ["body"] + [oe], ["tail"], b, e);
    RunAppend(Outside, ["keep"] + [ob] + ["body"], [oe], b, e);
    RunAppend(Outside, ["keep"] + [ob], ["body"], b, e);
    RunAppend(Outside, ["keep"], [ob], b, e);
  }

  /** A replacement: the old block between "a" and "b" is dropped and both
      surrounding lines are kept, "b" now ahead of the new block. */
  lemma ReplacementExample(namespace: string)
    ensures Kept(["a", SectionBegin(namespace), "old1", "old2", SectionEnd(namespace), "b"], namespace) == ["a", "b"]
  {
    var b, e := SectionBegin(namespace), SectionEnd(namespace);
    MarkersDistinct(namespace);
    assert RStrip("a") == "a" && RStrip("b") == "b";
    ShortLineMarkerFree("a", namespace);
    ShortLineMarkerFree("b", namespace);
    ShortLineMarkerFree("old1", namespace);
    ShortLineMarkerFree("old2", namespace);
    var s1 := ScanState(["a"], false);
    var s2 := ScanState(["a"], true);
    ScanOne(Outside, "a", b, e);
    ScanOne(s1, b, b, e);
    ScanOne(s2, e, b, e);
    ScanOne(s1, "b", b, e);
    StaysInside(["a"], ["old1", "old2"], b, e);
    var lines := ["a", b, "old1", "old2", e, "b"];
    assert lines == ["a"] + [b] + ["old1", "old2"] + [e] + ["b"];
    RunAppend(Outside, ["a"] + [b] + ["old1", "old2"] + [e], ["b"], b, e);
    RunAppend(Outside, ["a"] + [b] + ["old1", "old2"], [e], b, e);
    RunAppend(Outside, ["a"] + [b], ["old1", "old2"], b, e);
    RunAppend(Outside, ["a"], [b], b, e);
  }
}
