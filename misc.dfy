/**
 * The `misc` package: its own `prettyBuffer` (no header line, the group
 * column shows the padded offset) and its `flatten`, which is the same left
 * fold as `Common.Flatten`.
 */
module Misc {
  import HexDump

  method PrettyBuffer(buffer: seq<HexDump.byte>, every: int, width: int) returns (lines: seq<string>)
    ensures lines == HexDump.Lines(HexDump.OffsetGroups, buffer, every, width)
    ensures |lines| == HexDump.LineCount(|buffer|)
  {
    lines := HexDump.DumpLines(HexDump.OffsetGroups, buffer, every, width);
  }
}
