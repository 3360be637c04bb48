/** The block-upsert patcher of `ClusterInfoOperator.update_haproxy_data`:
    drop this namespace's old delimited block from an HAProxy configuration
    text, keep every other line right-stripped, add one blank separator
    line when needed and append a freshly rendered block. */
module Patcher {
  import opened PyStr

  /** `SECTION_BEGIN % namespace`. */
  function SectionBegin(namespace: string): string {
    "# section-datamate-" + namespace + "-begin"
  }

  /** `SECTION_END % namespace`. */
  function SectionEnd(namespace: string): string {
    "# section-datamate-" + namespace + "-end"
  }

  /** What a caller wants installed: the arguments of
      `update_haproxy_data` other than the current text. Ports are Python
      integers, rendered with `str()`. */
  datatype Rule = Rule(
    namespace: string,
    frontIp: string,
    frontPort: int,
    backendIp: string,
    backendPort: int,
    addressType: string)

  /** The bind line's interface placeholder, selected by the address type. */
  function FrontInterface(addressType: string): string {
    if addressType == "management" then "{{.ApisvrFrontIF}}" else "{{.TraefikFrontIF}}"
  }

  /** The thirteen lines appended for a rule, begin marker first and end
      marker last. */
  function RenderBlock(r: Rule): (block: seq<string>)
    ensures |block| == 13
    ensures block[0] == SectionBegin(r.namespace) && block[12] == SectionEnd(r.namespace)
  {
    [ SectionBegin(r.namespace),
      "frontend " + r.namespace + "_datamate_frontend",
      "    bind " + r.frontIp + ":" + DecimalString(r.frontPort) + " interface " + FrontInterface(r.addressType),
      "    default_backend   " + r.namespace + "_datamate_backend",
      "    maxconn {{.ApisvrFrontMaxConn}}",
      "    mode tcp",
      "",
      "backend " + r.namespace + "_datamate_backend",
      // one element, written in pieces
      "    default-server inter 2s" + " downinter 5s rise 2 fall 2" + " slowstart 60s maxconn 2000 maxqueue" + " 200 weight 100",
      "    balance   roundrobin",
      "    server app0 " + r.backendIp + ":" + DecimalString(r.backendPort),
      "    mode tcp",
      SectionEnd(r.namespace) ]
  }

  /** The scan's state after some prefix of the lines: the lines kept so
      far (`updated_lines`) and whether it is inside a dropped region
      (`matched`). */
  datatype ScanState = ScanState(kept: seq<string>, inside: bool)

  const Outside := ScanState([], false)

  /** One iteration of the scan on the raw line `raw`: the begin test comes
      first, then the end test, then the region test. */
  function Step(st: ScanState, raw: string, begin: string, end: string): ScanState
  {
    var line := RStrip(raw);
    if Contains(line, begin) then ScanState(st.kept, true)
    else if Contains(line, end) then ScanState(st.kept, false)
    else if st.inside then st
    else ScanState(st.kept + [line], false)
  }

  /** The scan run from state `st` over `lines`, in order. */
  function Run(st: ScanState, lines: seq<string>, begin: string, end: string): ScanState
    decreases |lines|
  {
    if lines == [] then st
    else Step(Run(st, lines[..|lines| - 1], begin, end), lines[|lines| - 1], begin, end)
  }

  /** The lines that survive the scan for `namespace`. */
  function Kept(lines: seq<string>, namespace: string): seq<string> {
    Run(Outside, lines, SectionBegin(namespace), SectionEnd(namespace)).kept
  }

  /** The blank line added when the kept part is non-empty and its last
      line is not blank. */
  function Separator(kept: seq<string>): (sep: seq<string>)
    ensures sep == [] || sep == [""]
    ensures kept == [] ==> sep == []
  {
    if |kept| > 0 && Strip(kept[|kept| - 1]) != [] then [""] else []
  }

  /** The lines of the patched document, before joining. */
  function PatchedLines(current: string, r: Rule): (lines: seq<string>)
    ensures |lines| >= 13 && lines[|lines| - 13..] == RenderBlock(r)
  {
    var kept := Kept(SplitLines(current), r.namespace);
    kept + Separator(kept) + RenderBlock(r)
  }

  /** The patched document. */
  function Patch(current: string, r: Rule): (text: string)
    ensures var block := Join(RenderBlock(r));
      |block| <= |text| && text[|text| - |block|..] == block
  {
    var lines := PatchedLines(current, r);
    var head := lines[..|lines| - 13];
    assert lines == head + RenderBlock(r);
    JoinAppend(head, RenderBlock(r));
    Join(lines)
  }

  /** Scanning one more line is one more step. */
  lemma RunNext(lines: seq<string>, i: nat, begin: string, end: string)
    requires i < |lines|
    ensures Run(Outside, lines[..i + 1], begin, end) == Step(Run(Outside, lines[..i], begin, end), lines[i], begin, end)
  {
    assert lines[..i + 1][..i] == lines[..i];
  }

  /** The patched lines are the kept part, its separator and the block. */
  lemma PatchedLinesFrom(current: string, r: Rule, kept: seq<string>)
    requires kept == Kept(SplitLines(current), r.namespace)
    ensures PatchedLines(current, r) == kept + Separator(kept) + RenderBlock(r)
  {
  }

  /** Joining the kept part, its separator and the block gives the patched
      document. */
  lemma PatchFrom(current: string, r: Rule, kept: seq<string>, lines: seq<string>)
    requires kept == Kept(SplitLines(current), r.namespace)
    requires lines == kept + Separator(kept) + RenderBlock(r)
    ensures Join(lines) == Patch(current, r)
  {
    PatchedLinesFrom(current, r, kept);
  }

  /** The `while` loop of `ClusterInfoOperator.update_haproxy_data`: it
      keeps `updated_lines` and `matched` equal to the scan of the lines
      processed so far, so it ends in the scan of all of them. */
  method ScanLines(lines: seq<string>, sectionBegin: string, sectionEnd: string)
    returns (updatedLines: seq<string>, matched: bool)
    ensures ScanState(updatedLines, matched) == Run(Outside, lines, sectionBegin, sectionEnd)
  {
    updatedLines := [];
    var i := 0;
    matched := false;
    while i < |lines|
      invariant 0 <= i <= |lines|
      invariant Run(Outside, lines[..i], sectionBegin, sectionEnd) == ScanState(updatedLines, matched)
    {
      ghost var before := ScanState(updatedLines, matched);
      var line := RStrip(lines[i]);
      if Contains(line, sectionBegin) {
        matched := true;
      } else if Contains(line, sectionEnd) {
        matched := false;
      } else if !matched {
        updatedLines := updatedLines + [line];
      }
      assert ScanState(updatedLines, matched) == Step(before, lines[i], sectionBegin, sectionEnd);
      RunNext(lines, i, sectionBegin, sectionEnd);
      i := i + 1;
    }
    assert lines[..i] == lines;
  }

  /** `ClusterInfoOperator.update_haproxy_data`: split the text, scan it,
      add the separator and the block, and join. */
  method UpdateHaproxyData(namespace: string, currentHaproxy: string, frontIp: string, frontPort: int,
                           backendIp: string, backendPort: int, addressType: string)
    returns (content: string)
    ensures content == Patch(currentHaproxy, Rule(namespace, frontIp, frontPort, backendIp, backendPort, addressType))
  {
    var lines := SplitLines(currentHaproxy);
    var sectionBegin := SectionBegin(namespace);
    var sectionEnd := SectionEnd(namespace);
    var updatedLines, matched := ScanLines(lines, sectionBegin, sectionEnd);
    ghost var kept := updatedLines;

    if |updatedLines| > 0 && Strip(updatedLines[|updatedLines| - 1]) != [] {
      updatedLines := updatedLines + [""];
    }
    assert updatedLines == kept + Separator(kept);

    var rule := Rule(namespace, frontIp, frontPort, backendIp, backendPort, addressType);
    updatedLines := updatedLines + RenderBlock(rule);
    PatchFrom(currentHaproxy, rule, kept, updatedLines);
    content := Join(updatedLines);
  }
}
