# HAProxy block patcher of the cluster-info config map

This project models the core of `tools/utils/config_haproxy.py`, the tool
that installs a per-namespace HAProxy frontend/backend pair into the
`haproxy` entry of the `cluster-info-smartkube` config map.

- `ClusterInfoOperator.update_haproxy_data` takes the current HAProxy
  configuration text. It drops the namespace's old block, which runs from
  the line containing `# section-datamate-<ns>-begin` to the line
  containing `# section-datamate-<ns>-end`. It keeps every other line
  right-stripped and in order. It adds one blank separator line when the
  kept part ends in a non-blank line. Then it appends a freshly rendered
  13-line block and joins the lines with `\n`.
- `ClusterInfoOperator.update` dumps the config map and reads
  `data.haproxy` from the dumped JSON. It patches that text, writes the new
  document and replaces the config map. It fails fast: nothing is written
  when the dump fails or `data.haproxy` cannot be found.

Files:

- `py_str.dfy` (module `PyStr`) defines the Python `str` built-ins the code
  relies on:
  - `isspace`, `rstrip` and `strip`;
  - `splitlines`, with all of Python's line boundaries and `\r\n` as one;
  - `'\n'.join`;
  - the `in` substring test;
  - `str()` of an integer.
- `patcher.dfy` (module `Patcher`) holds the patcher:
  - the block template;
  - the scan as a state machine (`Step`, `Run`);
  - the imperative `UpdateHaproxyData`. Its `while` loop is the method
    `ScanLines`, which is proved against that machine.
- `patcher_props.dfy` (module `PatcherProps`) holds a reference definition
  of which lines survive. It is stated with quantifiers over line indices,
  not with the scan's state. The scan is proved equal to it. The same file
  proves:
  - the separator rule;
  - the block's shape;
  - round-trip through `splitlines`;
  - idempotence;
  - isolation of lines that mention neither of the namespace's markers;
  - exactly one block.
- `cluster_info.dfy` (module `ClusterInfo`) holds `update`. The JSON
  document is a datatype. The outcome is a return value or a raised
  exception. The external steps taken are a trace of actions.

Behaviour of the code that is easy to miss; the model follows it:

- A line belongs to the block when it *contains* a marker, as a substring
  of the right-stripped line. A line containing both markers counts as a
  begin.
- A begin marker with no end marker after it silently drops the rest of the
  document. There is no malformed-block error.
- An end marker outside a block is dropped silently. A second begin inside
  a block simply stays inside.
- Lines after an old block are kept. They end up ahead of the new block,
  which is always appended at the end. For `["a", BEGIN, "old1", "old2",
  END, "b"]`, both "a" and "b" survive (`ReplacementExample`).
- The block is 13 lines: the two adjacent f-strings at
  config_haproxy.py:136-137 (and :153-154) form one list element. `{{{{.X}}}}` in an f-string renders as `{{.X}}`.
- Template selection by address type happens inside
  `update_haproxy_data`. Only the bind line's interface placeholder
  differs between the two templates.
- Other namespaces' blocks are not always left alone. Markers are matched
  as substrings, so for namespace `x` both marker lines of namespace
  `x-begin` (`# section-datamate-x-begin-begin` and
  `# section-datamate-x-begin-end`) contain `x`'s begin marker. Patching `x`
  drops that block and every later line up to one holding `x`'s end marker
  (`OtherBlockSwallowed`). Conversely, both marker lines of namespace
  `x-end` contain `x`'s end marker. Patching `x` deletes them even outside
  a region and keeps that block's body as unmarked lines
  (`OtherMarkersStripped`). A later patch of `x-end` then no longer finds
  its old block and appends a second frontend/backend pair with the same
  names. Isolation holds only for lines that contain neither of this
  namespace's markers (`Isolation`).
- Missing `data` or `haproxy` raises the generic "Cannot find haproxy config
  item" exception. Ill-typed JSON raises Python's own `TypeError` or
  `AttributeError`.

## Model

| member | source | states |
|---|---|---|
| PyStr.RStrip | tools/utils/config_haproxy.py:101 | `rstrip()` keeps a prefix that does not end in whitespace and cuts only whitespace |
| PyStr.Strip | tools/utils/config_haproxy.py:121 | `strip()` is empty exactly when the line is all whitespace |
| PyStr.RStrippedBlankIffEmpty | tools/utils/config_haproxy.py:101-121 | a right-stripped line is blank under `strip()` exactly when it is empty |
| PyStr.SplitLines | tools/utils/config_haproxy.py:92 | `splitlines()` is empty only for the empty text, and no piece holds a line boundary |
| PyStr.Join | tools/utils/config_haproxy.py:162 | `'\n'.join` of no lines is empty; the first line starts the text and, when more follow, is followed by `\n`; `SplitJoinRoundTrip` is its inverse |
| PyStr.Contains | tools/utils/config_haproxy.py:103-107 | the `in` substring test: the substring occurs at some index; only strings no longer than `s` occur, the empty string and `s` itself always do |
| PyStr.SplitJoinRoundTrip | tools/utils/config_haproxy.py:92-162 | joining with `\n` and splitting again returns the lines when none holds a boundary and the last is non-empty |
| PyStr.JoinAppend | tools/utils/config_haproxy.py:162 | the join of a concatenation is the two joins meeting at one `\n` |
| PyStr.DecimalString | tools/utils/config_haproxy.py:130 | `str()` of a port is non-empty, digits with a leading minus exactly for negatives |
| PyStr.DigitsRoundTrip | tools/utils/config_haproxy.py:130 | reading the decimal digits of a natural number back gives the number |
| PyStr.DecimalRoundTrip | tools/utils/config_haproxy.py:130 | `int(str(n)) == n`: the rendering of a port in the bind and server lines loses nothing |
| Patcher.SectionBegin | tools/utils/config_haproxy.py:97 | `SECTION_BEGIN % namespace`, the begin marker `# section-datamate-<ns>-begin`; `MarkersDistinct` states its properties |
| Patcher.SectionEnd | tools/utils/config_haproxy.py:98 | `SECTION_END % namespace`, the end marker `# section-datamate-<ns>-end`; `MarkersDistinct` states its properties |
| Patcher.FrontInterface | tools/utils/config_haproxy.py:126-147 | the bind line's interface placeholder: `{{.ApisvrFrontIF}}` when `address_type == "management"`, `{{.TraefikFrontIF}}` otherwise; `TemplatesDifferOnlyInBind` states that it is the only difference |
| Patcher.RenderBlock | tools/utils/config_haproxy.py:126-159 | the appended block has 13 lines, the begin marker first and the end marker last |
| Patcher.Step | tools/utils/config_haproxy.py:101-118 | one iteration of the loop on the scan state (`updated_lines`, `matched`): begin test first, then end test, then the region test, else keep the right-stripped line; `StepCases` states its cases |
| Patcher.Run | tools/utils/config_haproxy.py:100-118 | the loop over the lines in order, one `Step` per line; `ScanMatchesSurvivors` relates it to the reference definition |
| Patcher.Kept | tools/utils/config_haproxy.py:100-118 | `updated_lines` after the loop: what the scan keeps from the start state; `ScanMatchesSurvivors` and `KeptLinesMarkerFree` state which lines those are |
| Patcher.Separator | tools/utils/config_haproxy.py:120-122 | the separator is empty or one blank line, and empty when nothing was kept; `SeparatorInserted` states exactly when it is added |
| Patcher.PatchedLines | tools/utils/config_haproxy.py:120-159 | the lines to join always end with the 13-line block |
| Patcher.Patch | tools/utils/config_haproxy.py:89-163 | the patched text ends with the joined block; `PatchRoundTrip`, `Idempotent` and `ExactlyOneBlock` state its other properties |
| Patcher.ScanLines | tools/utils/config_haproxy.py:100-118 | the loop ends with `updated_lines`/`matched` equal to the scan of all lines; its invariant keeps them equal to the scan of the lines seen so far |
| Patcher.UpdateHaproxyData | tools/utils/config_haproxy.py:89-163 | the result is the join of the kept lines, the separator and the block, which is `Patch` of the current text |
| PatcherProps.MarkersDistinct | tools/utils/config_haproxy.py:97-98 | each marker is rstrip-stable and contains itself; neither marker contains the other |
| PatcherProps.StepCases | tools/utils/config_haproxy.py:101-118 | a step keeps the right-stripped line or nothing; it keeps the line exactly outside a region when the line mentions neither marker; it is then inside exactly when the line opens a region, or it was inside and the line does not close it |
| PatcherProps.InsideAtExtend | tools/utils/config_haproxy.py:103-114 | a region that a line lies in and does not close still holds at the next line |
| PatcherProps.InsideAtShrink | tools/utils/config_haproxy.py:103-114 | a region the next line lies in that this line did not open already held here and was not closed here |
| PatcherProps.InsideAtStep | tools/utils/config_haproxy.py:103-114 | a line lies in a region exactly when the previous line opens one, or lies in one and does not close it |
| PatcherProps.ScanMatchesSurvivors | tools/utils/config_haproxy.py:100-118 | the scan keeps exactly the lines that mention no marker and lie in no open region, right-stripped, in order; its flag says whether a region is open |
| PatcherProps.RunOnlyAppends | tools/utils/config_haproxy.py:100-118 | the scan only appends to what it has kept |
| PatcherProps.StaysInside | tools/utils/config_haproxy.py:103-114 | inside a region, lines without an end marker (or with a begin marker) are dropped and the region stays open |
| PatcherProps.MarkerFreeKept | tools/utils/config_haproxy.py:112-118 | outside a region, marker-free lines are all kept, right-stripped |
| PatcherProps.UnclosedRegionDropsRest | tools/utils/config_haproxy.py:103-114 | a begin line with no end line after it drops the rest of the document |
| PatcherProps.KeptLinesClean | tools/utils/config_haproxy.py:101-118 | every kept line is right-stripped and free of both markers |
| PatcherProps.KeptLinesMarkerFree | tools/utils/config_haproxy.py:92-118 | the lines kept from a text are clean and hold no line boundary |
| PatcherProps.Isolation | tools/utils/config_haproxy.py:100-118 | a run of lines outside a region that contain neither of this namespace's markers comes through right-stripped and contiguous and does not change how the rest is treated |
| PatcherProps.OtherBlockSwallowed | tools/utils/config_haproxy.py:97-114 | the block of namespace `ns-begin` reads as a begin of `ns`'s region: patching `ns` drops that block and the rest of the document after it |
| PatcherProps.SeparatorInserted | tools/utils/config_haproxy.py:120-122 | one blank line is added exactly when the kept part is non-empty and its last line is non-empty |
| PatcherProps.TemplatesDifferOnlyInBind | tools/utils/config_haproxy.py:126-159 | the two templates agree except on the bind line, whose interface is `{{.ApisvrFrontIF}}` for "management" and `{{.TraefikFrontIF}}` otherwise |
| PatcherProps.PatchEndsWithBlock | tools/utils/config_haproxy.py:124-163 | the patched lines end with the block; the text is the kept part and separator, then `\n`, then the block |
| PatcherProps.PlainArgumentsWellFormed | tools/utils/config_haproxy.py:126-159 | namespace and addresses without line boundaries or `#` give a block whose lines hold no boundary and whose body mentions no marker |
| PatcherProps.BlockScan | tools/utils/config_haproxy.py:126-159 | scanning the rendered block from any state keeps nothing and ends outside a region |
| PatcherProps.PatchRoundTrip | tools/utils/config_haproxy.py:92-162 | splitting the patched text gives back exactly the patched lines |
| PatcherProps.RescanPatchedLines | tools/utils/config_haproxy.py:92-162 | re-scanning the patched lines keeps the kept part and separator and drops the block |
| PatcherProps.SeparatorSettles | tools/utils/config_haproxy.py:120-122 | after the separator is added, no second one is needed |
| PatcherProps.RepatchFrom | tools/utils/config_haproxy.py:92-162 | a text that reads back as a kept part with its separator, then a dropped block, is patched into the same lines |
| PatcherProps.RepatchSameLines | tools/utils/config_haproxy.py:89-163 | patching the patched text again produces the same lines |
| PatcherProps.Idempotent | tools/utils/config_haproxy.py:89-163 | patching the patched text again with the same arguments gives the same text |
| PatcherProps.CountAppend | tools/utils/config_haproxy.py:162 | the count of marker lines is additive over concatenation |
| PatcherProps.CountNone | tools/utils/config_haproxy.py:103-110 | lines that do not contain a marker contribute no marker lines |
| PatcherProps.OneOfEach | tools/utils/config_haproxy.py:126-159 | marker-free lines followed by a begin line, marker-free lines and an end line hold one line of each marker |
| PatcherProps.ExactlyOneBlock | tools/utils/config_haproxy.py:89-163 | the patched text has exactly one line with the begin marker and exactly one with the end marker |
| PatcherProps.BeginSuffixedMarkers | tools/utils/config_haproxy.py:97-98 | both marker lines of namespace `ns-begin` contain `ns`'s begin marker, so each opens a region of `ns` and neither closes one |
| PatcherProps.EndSuffixedMarkers | tools/utils/config_haproxy.py:97-98 | both marker lines of namespace `ns-end` contain `ns`'s end marker and neither contains its begin marker |
| PatcherProps.OtherMarkersStripped | tools/utils/config_haproxy.py:103-118 | patching `ns` deletes both marker lines of namespace `ns-end` outside any region and keeps that block's body |
| PatcherProps.ScanOne | tools/utils/config_haproxy.py:103-118 | a begin line opens a region, an end line without a begin marker closes it, and a clean line outside a region is kept |
| PatcherProps.ShortLineMarkerFree | tools/utils/config_haproxy.py:97-98 | a line shorter than the marker prefix contains neither marker |
| PatcherProps.ReplacementExample | tools/utils/config_haproxy.py:100-118 | in `a, BEGIN, old1, old2, END, b` the old block is dropped and both `a` and `b` are kept |
| ClusterInfo.Lookup | tools/utils/config_haproxy.py:172-174 | `key not in c` then `c[key]`: a value is found exactly when `c` is an object with that key; the only error is `TypeError`, raised for scalars and for a list or string that holds the key |
| ClusterInfo.HaproxyText | tools/utils/config_haproxy.py:172-174 | the text is found exactly when `data` is an object whose `haproxy` is a string; a missing `data` or `haproxy` raises the "Cannot find haproxy config item" exception; a non-string `haproxy` raises `AttributeError`; scalars raise `TypeError` |
| ClusterInfo.SetHaproxy | tools/utils/config_haproxy.py:181 | the written document differs from the loaded one only at `data.haproxy`, which now holds the new text |
| ClusterInfo.SetHaproxyTwice | tools/utils/config_haproxy.py:181 | writing the same text at `data.haproxy` a second time gives the same document |
| ClusterInfo.Update | tools/utils/config_haproxy.py:165-189 | a failed dump returns False after the dump alone; a load or lookup failure raises before anything is written; otherwise the patched document is written, then replaced, and the result is the replace's |
| ClusterInfo.UpdateSettles | tools/utils/config_haproxy.py:165-189 | updating the written document again with the same arguments writes the same document |

## Left out

- `run_shell_cmd` and `run_shell_cmd_with_file_handler` (config_haproxy.py:192-243) are not modelled. They cover process launch, timeouts, signals and output capture.
- The `kubectl` calls behind `ConfigMapOperator.dump` and `replace` (config_haproxy.py:46-65) are not modelled. Their success flags are inputs to `ClusterInfo.Update`.
- `get_json_data` and `json.dump` are file I/O (config_haproxy.py:80-87,183-184). The loaded document is an input; `None` stands for an unreadable file. An error raised while writing the new file is not modelled.
- The logger and its setup (config_haproxy.py:24-43) are not modelled. They only write diagnostics.
- Argument parsing and the `__main__` entry point (config_haproxy.py:246-277) are not modelled.
- ClusterInfo.Json: JSON floats are not modelled; numbers are integers. Key order and formatting of the written file are not modelled either.
- ClusterInfo.Update: the JSON encoder's failures are not modelled. Neither are other exceptions raised by `kubectl`-side code.
- PatcherProps.Idempotent and PatcherProps.ExactlyOneBlock assume `WellFormedRule`: the rendered block holds no line boundary and its body mentions no marker of its namespace. `PlainArgumentsWellFormed` gives a sufficient condition. Without it, a namespace or address holding a newline or a marker can make the block re-read differently.
