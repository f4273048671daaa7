/** libapinfo: the PALS application information file, versions 1 and 5. */
module Apinfo {
  import opened Wrappers
  import opened Bytes

  // ----- task maps

  /** A task map: the node of each task, in task order. */
  type Taskmap = seq<nat>

  /** taskmap_taskids: the tasks of a node, in ascending order. */
  function TaskIds(tasks: Taskmap, node: nat): seq<nat> {
    if tasks == [] then []
    else
      var last := |tasks| - 1;
      TaskIds(tasks[..last], node) + if tasks[last] == node then [last] else []
  }

  /** taskmap_nnodes: one more than the largest node id. */
  function NumNodes(tasks: Taskmap): nat {
    if tasks == [] then 0
    else
      var rest, last := NumNodes(tasks[..|tasks| - 1]), tasks[|tasks| - 1];
      if last < rest then rest else last + 1
  }

  /** The number of earlier tasks on the same node. */
  function Rank(tasks: Taskmap, t: nat): nat
    requires t < |tasks|
  {
    |TaskIds(tasks[..t], tasks[t])|
  }

  lemma {:induction false} TaskIdsPrefix(tasks: Taskmap, node: nat, t: nat)
    requires t <= |tasks|
    ensures TaskIds(tasks[..t], node) <= TaskIds(tasks, node)
  {
    if t < |tasks| {
      TaskIdsPrefix(tasks[..|tasks| - 1], node, t);
      assert tasks[..|tasks| - 1][..t] == tasks[..t];
    } else {
      assert tasks[..t] == tasks;
    }
  }

  /** A task sits at the position of its rank among the tasks of its node. */
  lemma {:induction false} TaskAtRank(tasks: Taskmap, t: nat)
    requires t < |tasks|
    ensures Rank(tasks, t) < |TaskIds(tasks, tasks[t])| && TaskIds(tasks, tasks[t])[Rank(tasks, t)] == t
  {
    var node := tasks[t];
    TaskIdsPrefix(tasks, node, t + 1);
    assert tasks[..t + 1][..t] == tasks[..t];
    assert TaskIds(tasks[..t + 1], node) == TaskIds(tasks[..t], node) + [t];
  }

  /** Every position in a node's list is the rank of the task it holds. */
  lemma {:induction false} RankOfPosition(tasks: Taskmap, node: nat, k: nat)
    requires k < |TaskIds(tasks, node)|
    ensures var t := TaskIds(tasks, node)[k]; t < |tasks| && tasks[t] == node && Rank(tasks, t) == k
  {
    var last := |tasks| - 1;
    var front := tasks[..last];
    if k < |TaskIds(front, node)| {
      RankOfPosition(front, node, k);
      var t := TaskIds(front, node)[k];
      assert front[..t] == tasks[..t];
    }
  }

  /** localidx: walk the node's task ids until the task is found. */
  method LocalIndex(tasks: Taskmap, node: nat, t: nat) returns (r: int)
    ensures t < |tasks| && tasks[t] == node ==> r == Rank(tasks, t)
    ensures !(t < |tasks| && tasks[t] == node) ==> r == -1
  {
    var ids := TaskIds(tasks, node);
    if t < |tasks| && tasks[t] == node { TaskAtRank(tasks, t); }
    for i := 0 to |ids|
      invariant t !in ids[..i]
    {
      RankOfPosition(tasks, node, i);
      if ids[i] == t {
        return i;
      }
      assert ids[..i + 1] == ids[..i] + [ids[i]];
    }
    assert ids[..|ids|] == ids;
    return -1;
  }

  /** max_ntasks. */
  method MaxTasks(tasks: Taskmap) returns (m: nat)
    ensures IsMaxTasks(tasks, m)
  {
    m := 0;
    for node := 0 to NumNodes(tasks)
      invariant forall n :: 0 <= n < node ==> |TaskIds(tasks, n)| <= m
      invariant m > 0 ==> exists n: nat :: |TaskIds(tasks, n)| == m
    {
      if m < |TaskIds(tasks, node)| {
        m := |TaskIds(tasks, node)|;
      }
    }
    forall node: nat ensures |TaskIds(tasks, node)| <= m {
      if node >= NumNodes(tasks) { NoTasks(tasks, node); }
    }
  }

  lemma {:induction false} NoTasks(tasks: Taskmap, node: nat)
    requires node >= NumNodes(tasks)
    ensures TaskIds(tasks, node) == []
  {
    if tasks != [] { NoTasks(tasks[..|tasks| - 1], node); }
  }

  // ----- records

  datatype Cmd = Cmd(npes: int, pesPerNode: int, cpusPerPe: int)

  datatype Pe = Pe(localidx: int, cmdidx: int, nodeidx: int)

  /** A host name is a C string: bytes without a NUL. */
  type Host = s: seq<Byte> | forall i :: 0 <= i < |s| ==> s[i] != 0 witness []

  datatype NodeRec = NodeRec(nid: int, hostname: Host)

  const HOST_BYTES := 64

  /** What snprintf keeps of a name in a 64-byte field: as much as fits before a NUL. */
  function Kept(h: Host): (r: Host)
    ensures r <= h && |r| < HOST_BYTES && (r == h || |r| == HOST_BYTES - 1)
  {
    if |h| < HOST_BYTES then h else h[..HOST_BYTES - 1]
  }

  predicate CmdFits(c: Cmd) { IsInt(c.npes) && IsInt(c.pesPerNode) && IsInt(c.cpusPerPe) }

  predicate PeFits(p: Pe) { IsInt(p.localidx) && IsInt(p.cmdidx) && IsInt(p.nodeidx) }

  predicate NodeFits(n: NodeRec) { IsInt(n.nid) && |n.hostname| < HOST_BYTES }

  function CmdBytes(c: Cmd): (r: seq<Byte>)
    requires CmdFits(c)
    ensures |r| == 12
  {
    Int(c.npes) + Int(c.pesPerNode) + Int(c.cpusPerPe)
  }

  function PeBytes(p: Pe): (r: seq<Byte>)
    requires PeFits(p)
    ensures |r| == 12
  {
    Int(p.localidx) + Int(p.cmdidx) + Int(p.nodeidx)
  }

  function NodeBytes(n: NodeRec): (r: seq<Byte>)
    requires NodeFits(n)
    ensures |r| == 68
  {
    Int(n.nid) + n.hostname + seq(HOST_BYTES - |n.hostname|, _ => 0)
  }

  /** The part of a field before its first NUL. */
  function CString(s: seq<Byte>): (r: Host) {
    if s == [] || s[0] == 0 then [] else [s[0]] + CString(s[1..])
  }

  function ReadCmd(s: seq<Byte>): Cmd
    requires |s| == 12
  {
    Cmd(FromInt(s[..4]), FromInt(s[4..8]), FromInt(s[8..]))
  }

  function ReadPe(s: seq<Byte>): Pe
    requires |s| == 12
  {
    Pe(FromInt(s[..4]), FromInt(s[4..8]), FromInt(s[8..]))
  }

  function ReadNode(s: seq<Byte>): NodeRec
    requires |s| == 68
  {
    NodeRec(FromInt(s[..4]), CString(s[4..]))
  }

  lemma {:induction false} CmdInverse(c: Cmd)
    requires CmdFits(c)
    ensures ReadCmd(CmdBytes(c)) == c
  {
    var s := CmdBytes(c);
    IntInverse(c.npes);
    IntInverse(c.pesPerNode);
    IntInverse(c.cpusPerPe);
    assert s[..4] == Int(c.npes) && s[4..8] == Int(c.pesPerNode) && s[8..] == Int(c.cpusPerPe);
  }

  lemma {:induction false} PeInverse(p: Pe)
    requires PeFits(p)
    ensures ReadPe(PeBytes(p)) == p
  {
    var s := PeBytes(p);
    IntInverse(p.localidx);
    IntInverse(p.cmdidx);
    IntInverse(p.nodeidx);
    assert s[..4] == Int(p.localidx) && s[4..8] == Int(p.cmdidx) && s[8..] == Int(p.nodeidx);
  }

  lemma {:induction false} CStringInverse(h: Host, k: nat)
    requires k > 0
    ensures CString(h + seq(k, _ => 0)) == h
  {
    var s := h + seq(k, _ => 0);
    if h != [] {
      CStringInverse(h[1..], k);
      assert s[1..] == h[1..] + seq(k, _ => 0);
    }
  }

  lemma {:induction false} NodeInverse(n: NodeRec)
    requires NodeFits(n)
    ensures ReadNode(NodeBytes(n)) == n
  {
    var s, k := NodeBytes(n), HOST_BYTES - |n.hostname|;
    IntInverse(n.nid);
    assert s[..4] == Int(n.nid) && s[4..] == n.hostname + seq(k, _ => 0);
    CStringInverse(n.hostname, k);
  }

  // ----- the file

  datatype Version = V1 | V5

  function Number(v: Version): nat { if v == V1 then 1 else 5 }
  function HeaderSize(v: Version): nat { if v == V1 then 136 else 160 }
  function CommSize(v: Version): nat { if v == V1 then 52 else 36 }
  function NicSize(v: Version): nat { if v == V1 then 48 else 112 }
  const CMD_SIZE := 12
  const PE_SIZE := 12
  const NODE_SIZE := 68
  const DIST_SIZE := 2
  const STATUS_SIZE := 4

  /** The variable part of pals_header_t, and the two counts version 5 keeps beside
      it. Version 1 has no dist or status section. */
  datatype Header = Header(version: Version, totalSize: nat,
                           commOffset: nat, ncomms: nat, cmdOffset: nat, ncmds: nat, peOffset: nat, npes: nat,
                           nodeOffset: nat, nnodes: nat, nicOffset: nat, nnics: nat,
                           distOffset: nat, ndist: nat, statusOffset: nat, nstatus: nat)

  /** Every header field occupies eight bytes: a size_t, or an int and padding. */
  function Cells(h: Header): seq<nat> {
    [Number(h.version), h.totalSize, CommSize(h.version), h.commOffset, h.ncomms,
     CMD_SIZE, h.cmdOffset, h.ncmds, PE_SIZE, h.peOffset, h.npes, NODE_SIZE, h.nodeOffset, h.nnodes,
     NicSize(h.version), h.nicOffset, h.nnics]
    + if h.version == V1 then [] else [h.statusOffset, DIST_SIZE, h.distOffset]
  }

  function CellBytes(cells: seq<nat>): seq<seq<Byte>> {
    seq(|cells|, i requires 0 <= i < |cells| => Little(cells[i], 8))
  }

  function HeaderBytes(h: Header): seq<Byte> { Flat(CellBytes(Cells(h))) }

  lemma {:induction false} HeaderLength(h: Header)
    ensures |HeaderBytes(h)| == HeaderSize(h.version)
  {
    FlatLength(CellBytes(Cells(h)), 8);
  }

  /** Each offset is where the sections before it end; the optional sections of
      version 5 have offset 0 when they are empty. */
  ghost predicate Laid(h: Header) {
    && h.commOffset == HeaderSize(h.version)
    && h.cmdOffset == h.commOffset + CommSize(h.version) * h.ncomms
    && h.peOffset == h.cmdOffset + CMD_SIZE * h.ncmds
    && h.nodeOffset == h.peOffset + PE_SIZE * h.npes
    && h.nicOffset == h.nodeOffset + NODE_SIZE * h.nnodes
    && var nicEnd := h.nicOffset + NicSize(h.version) * h.nnics;
       var distEnd := nicEnd + DIST_SIZE * h.ndist;
       && h.distOffset == (if h.ndist > 0 then nicEnd else 0)
       && h.statusOffset == (if h.nstatus > 0 then distEnd else 0)
       && h.totalSize == distEnd + STATUS_SIZE * h.nstatus
  }

  // ----- reading a file back

  datatype Contents = Contents(version: int, comms: seq<seq<Byte>>, cmds: seq<Cmd>, pes: seq<Pe>,
                               nodes: seq<NodeRec>, nics: seq<seq<Byte>>)

  function SizeAt(file: seq<Byte>, i: nat): nat
    requires 8 * i + 8 <= |file|
  {
    FromLittle(file[8 * i..8 * i + 8])
  }

  function IntAt(file: seq<Byte>, i: nat): int
    requires 8 * i + 8 <= |file|
  {
    FromInt(file[8 * i..8 * i + 4])
  }

  predicate InFile(file: seq<Byte>, size: nat, offset: nat, count: nat) {
    forall i :: 0 <= i < count ==> 0 <= offset + size * i && offset + size * i + size <= |file|
  }

  /** The records of the section described by header fields i, i + 1 and i + 2, as a
      reader finds them; missing if the file is malformed. */
  function ReadSection(file: seq<Byte>, i: nat, size: nat): (r: Option<seq<seq<Byte>>>)
    requires 8 * i + 24 <= |file|
    ensures r.Some? ==> Sized(r.value, size)
  {
    var offset, count := SizeAt(file, i + 1), IntAt(file, i + 2);
    if SizeAt(file, i) == size && count >= 0 && InFile(file, size, offset, count)
    then Some(GetStructs(file, size, offset, count))
    else None
  }

  /** Communication profiles and NICs are read in the size that the header gives. */
  function ReadFile(file: seq<Byte>): Option<Contents> {
    if |file| < 136 then None
    else
      var cmds, pes, nodes := ReadSection(file, 5, 12), ReadSection(file, 8, 12), ReadSection(file, 11, 68);
      var comms, nics := ReadSection(file, 2, SizeAt(file, 2)), ReadSection(file, 14, SizeAt(file, 14));
      if comms == None || cmds == None || pes == None || nodes == None || nics == None then None
      else Some(Contents(IntAt(file, 0), comms.value,
                         seq(|cmds.value|, i requires 0 <= i < |cmds.value| => ReadCmd(cmds.value[i])),
                         seq(|pes.value|, i requires 0 <= i < |pes.value| => ReadPe(pes.value[i])),
                         seq(|nodes.value|, i requires 0 <= i < |nodes.value| => ReadNode(nodes.value[i])),
                         nics.value))
  }

  lemma {:induction false} CellReads(h: Header, rest: seq<Byte>, i: nat)
    requires i < |Cells(h)| && Cells(h)[i] < Pow256(8)
    ensures 8 * i + 8 <= |HeaderBytes(h) + rest|
    ensures SizeAt(HeaderBytes(h) + rest, i) == Cells(h)[i]
    ensures Cells(h)[i] < INT_LIMIT ==> IntAt(HeaderBytes(h) + rest, i) == Cells(h)[i]
  {
    var records, file, v := CellBytes(Cells(h)), HeaderBytes(h) + rest, Cells(h)[i];
    FlatSlice(records, 8, i);
    assert file[8 * i..8 * i + 8] == records[i] == Little(v, 8);
    LittleInverse(v, 8);
    if v < INT_LIMIT {
      IntInCell(v);
      assert file[8 * i..8 * i + 4] == Little(v, 8)[..4];
    }
  }

  lemma {:induction false} SectionReads(h: Header, rest: seq<Byte>, i: nat, size: nat, records: seq<seq<Byte>>)
    requires i + 2 < |Cells(h)| && Cells(h)[i] == size < INT_LIMIT && Cells(h)[i + 1] < Pow256(8)
    requires Cells(h)[i + 2] == |records| < INT_LIMIT && Sized(records, size)
    requires HoldsAt(HeaderBytes(h) + rest, Cells(h)[i + 1], size, records)
    ensures 8 * i + 24 <= |HeaderBytes(h) + rest|
    ensures ReadSection(HeaderBytes(h) + rest, i, size) == Some(records)
  {
    var file, offset := HeaderBytes(h) + rest, Cells(h)[i + 1];
    Pow256Values();
    CellReads(h, rest, i);
    CellReads(h, rest, i + 1);
    CellReads(h, rest, i + 2);
    assert forall k :: 0 <= k < |records| ==> |records[k]| == size;
    assert InFile(file, size, offset, |records|) by {
      forall k | 0 <= k < |records| ensures 0 <= offset + size * k && offset + size * k + size <= |file| {
        assert |records[k]| == size;
      }
    }
    var got := GetStructs(file, size, offset, |records|);
    assert forall k :: 0 <= k < |records| ==> got[k] == records[k];
    assert got == records;
  }

  ghost predicate AllFit(cmds: seq<Cmd>, pes: seq<Pe>, nodes: seq<NodeRec>) {
    && |cmds| < INT_LIMIT && |pes| < INT_LIMIT && |nodes| < INT_LIMIT
    && (forall i :: 0 <= i < |cmds| ==> CmdFits(cmds[i]))
    && (forall i :: 0 <= i < |pes| ==> PeFits(pes[i]))
    && (forall i :: 0 <= i < |nodes| ==> NodeFits(nodes[i]))
  }

  function CmdRecords(cmds: seq<Cmd>): seq<seq<Byte>>
    requires forall i :: 0 <= i < |cmds| ==> CmdFits(cmds[i])
  {
    seq(|cmds|, i requires 0 <= i < |cmds| => CmdBytes(cmds[i]))
  }

  function PeRecords(pes: seq<Pe>): seq<seq<Byte>>
    requires forall i :: 0 <= i < |pes| ==> PeFits(pes[i])
  {
    seq(|pes|, i requires 0 <= i < |pes| => PeBytes(pes[i]))
  }

  function NodeRecords(nodes: seq<NodeRec>): seq<seq<Byte>>
    requires forall i :: 0 <= i < |nodes| ==> NodeFits(nodes[i])
  {
    seq(|nodes|, i requires 0 <= i < |nodes| => NodeBytes(nodes[i]))
  }

  /** The records of the sections that the library lays out but never fills. */
  datatype Extra = Extra(comms: seq<seq<Byte>>, nics: seq<seq<Byte>>, dist: seq<seq<Byte>>, status: seq<seq<Byte>>)

  ghost predicate ExtraFits(v: Version, x: Extra) {
    && |x.comms| < INT_LIMIT && |x.nics| < INT_LIMIT && |x.dist| < INT_LIMIT && |x.status| < INT_LIMIT
    && Sized(x.comms, CommSize(v)) && Sized(x.nics, NicSize(v))
    && Sized(x.dist, DIST_SIZE) && Sized(x.status, STATUS_SIZE)
    && (v == V1 ==> x.dist == [] && x.status == [])
  }

  /** Everything in a file behind its header. */
  datatype Data = Data(extra: Extra, cmds: seq<Cmd>, pes: seq<Pe>, nodes: seq<NodeRec>)

  ghost predicate Fits(v: Version, d: Data) { ExtraFits(v, d.extra) && AllFit(d.cmds, d.pes, d.nodes) }

  /** The sections in file order. */
  function Sections(v: Version, d: Data): seq<Section>
    requires AllFit(d.cmds, d.pes, d.nodes)
  {
    [Section(CommSize(v), d.extra.comms), Section(CMD_SIZE, CmdRecords(d.cmds)), Section(PE_SIZE, PeRecords(d.pes)),
     Section(NODE_SIZE, NodeRecords(d.nodes)), Section(NicSize(v), d.extra.nics), Section(DIST_SIZE, d.extra.dist),
     Section(STATUS_SIZE, d.extra.status)]
  }

  /** The header describes these records. */
  ghost predicate Describes(h: Header, d: Data) {
    && Laid(h)
    && h.ncomms == |d.extra.comms| && h.ncmds == |d.cmds| && h.npes == |d.pes| && h.nnodes == |d.nodes|
    && h.nnics == |d.extra.nics| && h.ndist == |d.extra.dist| && h.nstatus == |d.extra.status|
  }

  function FileBytes(h: Header, d: Data): seq<Byte>
    requires AllFit(d.cmds, d.pes, d.nodes)
  {
    HeaderBytes(h) + Emitted(Sections(h.version, d))
  }

  lemma {:induction false} SectionsSized(v: Version, d: Data)
    requires Fits(v, d)
    ensures AllSized(Sections(v, d))
  {
  }

  /** Where set_offsets puts the sections. */
  lemma {:induction false} OffsetsAreSpans(h: Header, d: Data)
    requires Fits(h.version, d) && Describes(h, d)
    ensures var ss, n := Sections(h.version, d), HeaderSize(h.version);
            && n + Span(ss) == h.totalSize
            && n + Span(ss[..0]) == h.commOffset && n + Span(ss[..1]) == h.cmdOffset && n + Span(ss[..2]) == h.peOffset
            && n + Span(ss[..3]) == h.nodeOffset && n + Span(ss[..4]) == h.nicOffset
            && (d.extra.dist != [] ==> n + Span(ss[..5]) == h.distOffset)
            && (d.extra.status != [] ==> n + Span(ss[..6]) == h.statusOffset)
  {
    SevenSections(Sections(h.version, d));
  }

  lemma {:induction false} PlacedAt(h: Header, d: Data, k: nat, offset: nat, size: nat, records: seq<seq<Byte>>)
    requires Fits(h.version, d) && AllSized(Sections(h.version, d)) && k < |Sections(h.version, d)|
    requires Sections(h.version, d)[k] == Section(size, records)
    requires records != [] ==> offset == HeaderSize(h.version) + Span(Sections(h.version, d)[..k])
    ensures HoldsAt(FileBytes(h, d), offset, size, records)
  {
    HeaderLength(h);
    SectionInPlace(HeaderBytes(h), Sections(h.version, d), k);
  }

  /** The header's offsets are where the sections are, the optional ones only when they
      are not empty, and the file ends at its total size. */
  lemma {:induction false} SectionsInPlace(h: Header, d: Data)
    requires Fits(h.version, d) && Describes(h, d)
    ensures var file := FileBytes(h, d);
            && |file| == h.totalSize
            && HoldsAt(file, h.commOffset, CommSize(h.version), d.extra.comms)
            && HoldsAt(file, h.cmdOffset, CMD_SIZE, CmdRecords(d.cmds))
            && HoldsAt(file, h.peOffset, PE_SIZE, PeRecords(d.pes))
            && HoldsAt(file, h.nodeOffset, NODE_SIZE, NodeRecords(d.nodes))
            && HoldsAt(file, h.nicOffset, NicSize(h.version), d.extra.nics)
            && HoldsAt(file, h.distOffset, DIST_SIZE, d.extra.dist)
            && HoldsAt(file, h.statusOffset, STATUS_SIZE, d.extra.status)
  {
    HeaderLength(h);
    SectionsSized(h.version, d);
    OffsetsAreSpans(h, d);
    EmittedLength(Sections(h.version, d));
    PlacedAt(h, d, 0, h.commOffset, CommSize(h.version), d.extra.comms);
    PlacedAt(h, d, 1, h.cmdOffset, CMD_SIZE, CmdRecords(d.cmds));
    PlacedAt(h, d, 2, h.peOffset, PE_SIZE, PeRecords(d.pes));
    PlacedAt(h, d, 3, h.nodeOffset, NODE_SIZE, NodeRecords(d.nodes));
    PlacedAt(h, d, 4, h.nicOffset, NicSize(h.version), d.extra.nics);
    PlacedAt(h, d, 5, h.distOffset, DIST_SIZE, d.extra.dist);
    PlacedAt(h, d, 6, h.statusOffset, STATUS_SIZE, d.extra.status);
  }

  lemma {:induction false} CellValues(h: Header, d: Data)
    requires Fits(h.version, d) && Describes(h, d)
    ensures |Cells(h)| >= 17 && Cells(h)[0] == Number(h.version)
    ensures Cells(h)[2] == CommSize(h.version) && Cells(h)[3] == h.commOffset && Cells(h)[4] == |d.extra.comms|
    ensures Cells(h)[5] == CMD_SIZE && Cells(h)[6] == h.cmdOffset && Cells(h)[7] == |d.cmds|
    ensures Cells(h)[8] == PE_SIZE && Cells(h)[9] == h.peOffset && Cells(h)[10] == |d.pes|
    ensures Cells(h)[11] == NODE_SIZE && Cells(h)[12] == h.nodeOffset && Cells(h)[13] == |d.nodes|
    ensures Cells(h)[14] == NicSize(h.version) && Cells(h)[15] == h.nicOffset && Cells(h)[16] == |d.extra.nics|
  {
  }

  lemma {:induction false} OffsetsFit(h: Header, d: Data)
    requires Fits(h.version, d) && Describes(h, d)
    ensures h.commOffset < Pow256(8) && h.cmdOffset < Pow256(8) && h.peOffset < Pow256(8)
    ensures h.nodeOffset < Pow256(8) && h.nicOffset < Pow256(8) && 112 < Pow256(8)
  {
    Pow256Values();
  }

  /** The version and the two sections that are read as they are. */
  lemma {:induction false} RawSectionsRead(h: Header, d: Data)
    requires Fits(h.version, d) && Describes(h, d)
    ensures var file := FileBytes(h, d);
            && |file| >= 136 && IntAt(file, 0) == Number(h.version)
            && ReadSection(file, 2, SizeAt(file, 2)) == Some(d.extra.comms)
            && ReadSection(file, 14, SizeAt(file, 14)) == Some(d.extra.nics)
  {
    var rest := Emitted(Sections(h.version, d));
    HeaderLength(h);
    CellValues(h, d);
    OffsetsFit(h, d);
    SectionsInPlace(h, d);
    CellReads(h, rest, 0);
    CellReads(h, rest, 2);
    CellReads(h, rest, 14);
    SectionReads(h, rest, 2, CommSize(h.version), d.extra.comms);
    SectionReads(h, rest, 14, NicSize(h.version), d.extra.nics);
  }

  lemma {:induction false} SectionsRead(h: Header, d: Data)
    requires Fits(h.version, d) && Describes(h, d)
    ensures var file := FileBytes(h, d);
            && |file| >= 136
            && ReadSection(file, 5, 12) == Some(CmdRecords(d.cmds))
            && ReadSection(file, 8, 12) == Some(PeRecords(d.pes))
            && ReadSection(file, 11, 68) == Some(NodeRecords(d.nodes))
  {
    var rest := Emitted(Sections(h.version, d));
    HeaderLength(h);
    CellValues(h, d);
    OffsetsFit(h, d);
    SectionsInPlace(h, d);
    SectionReads(h, rest, 5, CMD_SIZE, CmdRecords(d.cmds));
    SectionReads(h, rest, 8, PE_SIZE, PeRecords(d.pes));
    SectionReads(h, rest, 11, NODE_SIZE, NodeRecords(d.nodes));
  }

  lemma {:induction false} RecordsDecode(cmds: seq<Cmd>, pes: seq<Pe>, nodes: seq<NodeRec>)
    requires AllFit(cmds, pes, nodes)
    ensures seq(|cmds|, i requires 0 <= i < |cmds| => ReadCmd(CmdRecords(cmds)[i])) == cmds
    ensures seq(|pes|, i requires 0 <= i < |pes| => ReadPe(PeRecords(pes)[i])) == pes
    ensures seq(|nodes|, i requires 0 <= i < |nodes| => ReadNode(NodeRecords(nodes)[i])) == nodes
  {
    forall i | 0 <= i < |cmds| ensures ReadCmd(CmdRecords(cmds)[i]) == cmds[i] { CmdInverse(cmds[i]); }
    forall i | 0 <= i < |pes| ensures ReadPe(PeRecords(pes)[i]) == pes[i] { PeInverse(pes[i]); }
    forall i | 0 <= i < |nodes| ensures ReadNode(NodeRecords(nodes)[i]) == nodes[i] { NodeInverse(nodes[i]); }
  }

  /** The header of a file, read cell by cell: the version, the size of the file and the
      sizes of the records that are read as they are. */
  ghost predicate HeaderReads(file: seq<Byte>, v: Version) {
    && |file| >= 136 && SizeAt(file, 1) == |file|
    && IntAt(file, 0) == (if v == V1 then 1 else 5)
    && SizeAt(file, 2) == (if v == V1 then 52 else 36)
    && SizeAt(file, 14) == (if v == V1 then 48 else 112)
  }

  /** Records are where a header cell says, or the cell is 0 if there are none. */
  ghost predicate Optional(file: seq<Byte>, cell: nat, size: nat, records: seq<seq<Byte>>)
    requires 8 * cell + 8 <= |file|
  {
    if records == [] then SizeAt(file, cell) == 0 else HoldsAt(file, SizeAt(file, cell), size, records)
  }

  /** The last three cells of a version 5 header: both optional sections, the size of a
      dist record between their offsets. */
  ghost predicate TrailerReads(file: seq<Byte>, dist: seq<seq<Byte>>, status: seq<seq<Byte>>) {
    |file| >= 160 && Optional(file, 17, 4, status) && SizeAt(file, 18) == 2 && Optional(file, 19, 2, dist)
  }

  lemma {:induction false} TotalFits(h: Header, d: Data)
    requires Fits(h.version, d) && Describes(h, d)
    ensures h.totalSize < Pow256(8) && h.distOffset < Pow256(8) && h.statusOffset < Pow256(8)
  {
    Pow256Values();
  }

  lemma {:induction false} HeaderIsRead(h: Header, d: Data)
    requires Fits(h.version, d) && Describes(h, d)
    ensures HeaderReads(FileBytes(h, d), h.version)
  {
    var rest := Emitted(Sections(h.version, d));
    HeaderLength(h);
    OffsetsFit(h, d);
    TotalFits(h, d);
    SectionsInPlace(h, d);
    CellReads(h, rest, 0);
    CellReads(h, rest, 1);
    CellReads(h, rest, 2);
    CellReads(h, rest, 14);
  }

  lemma {:induction false} TrailerIsRead(h: Header, d: Data)
    requires Fits(h.version, d) && Describes(h, d) && h.version == V5
    ensures TrailerReads(FileBytes(h, d), d.extra.dist, d.extra.status)
  {
    var rest := Emitted(Sections(h.version, d));
    HeaderLength(h);
    TotalFits(h, d);
    Pow256Values();
    SectionsInPlace(h, d);
    CellReads(h, rest, 17);
    CellReads(h, rest, 18);
    CellReads(h, rest, 19);
  }

  function ContentsOf(v: Version, d: Data): Contents {
    Contents(Number(v), d.extra.comms, d.cmds, d.pes, d.nodes, d.extra.nics)
  }

  /** Reading a written file by the offsets in its header gives back the records. */
  lemma {:induction false} FileReadsBack(h: Header, d: Data)
    requires Fits(h.version, d) && Describes(h, d)
    ensures ReadFile(FileBytes(h, d)) == Some(ContentsOf(h.version, d))
  {
    RawSectionsRead(h, d);
    SectionsRead(h, d);
    DecodesTo(FileBytes(h, d), ContentsOf(h.version, d));
  }

  lemma {:induction false} DecodesTo(file: seq<Byte>, c: Contents)
    requires AllFit(c.cmds, c.pes, c.nodes) && |file| >= 136 && IntAt(file, 0) == c.version
    requires ReadSection(file, 2, SizeAt(file, 2)) == Some(c.comms)
    requires ReadSection(file, 5, 12) == Some(CmdRecords(c.cmds))
    requires ReadSection(file, 8, 12) == Some(PeRecords(c.pes))
    requires ReadSection(file, 11, 68) == Some(NodeRecords(c.nodes))
    requires ReadSection(file, 14, SizeAt(file, 14)) == Some(c.nics)
    ensures ReadFile(file) == Some(c)
  {
    RecordsDecode(c.cmds, c.pes, c.nodes);
    var r := ReadFile(file).value;
    assert r.cmds == c.cmds;
    assert r.pes == c.pes;
    assert r.nodes == c.nodes;
  }

  // ----- the handle

  /** The records that set_pes makes of a task map. */
  ghost predicate IsPes(tasks: Taskmap, pes: seq<Pe>) {
    |pes| == |tasks| && forall t :: 0 <= t < |tasks| ==> pes[t] == Pe(Rank(tasks, t), 0, tasks[t])
  }

  /** The records that op_set_hostlist makes of a host list. */
  ghost predicate IsNodes(hosts: seq<Host>, nodes: seq<NodeRec>) {
    |nodes| == |hosts| && forall i :: 0 <= i < |hosts| ==> nodes[i] == NodeRec(i, Kept(hosts[i]))
  }

  /** m is the largest number of tasks on one node. */
  ghost predicate IsMaxTasks(tasks: Taskmap, m: int) {
    && m >= 0 && (forall node :: |TaskIds(tasks, node)| <= m)
    && (m > 0 ==> exists node: nat :: |TaskIds(tasks, node)| == m)
  }

  ghost predicate IsCmds(tasks: Taskmap, cmds: seq<Cmd>) {
    && |cmds| == 1 && cmds[0].npes == |tasks|
    && IsMaxTasks(tasks, cmds[0].pesPerNode)
  }

  /** A PE's (node, local index) pair is below its node's task count and below
      pes_per_node. */
  lemma {:induction false} LocalIndexBelow(tasks: Taskmap, pes: seq<Pe>, cmds: seq<Cmd>, t: nat)
    requires IsPes(tasks, pes) && IsCmds(tasks, cmds) && t < |tasks|
    ensures 0 <= pes[t].localidx < |TaskIds(tasks, pes[t].nodeidx)| <= cmds[0].pesPerNode
  {
    TaskAtRank(tasks, t);
  }

  /** No two PEs share a pair. */
  lemma {:induction false} PesInjective(tasks: Taskmap, pes: seq<Pe>, t: nat, u: nat)
    requires IsPes(tasks, pes) && t < |tasks| && u < |tasks|
    ensures pes[t].nodeidx == pes[u].nodeidx && pes[t].localidx == pes[u].localidx ==> t == u
  {
    TaskAtRank(tasks, t);
    TaskAtRank(tasks, u);
  }

  /** Every pair of a node and an index below its task count belongs to a PE. */
  lemma {:induction false} PesSurjective(tasks: Taskmap, pes: seq<Pe>, node: nat, k: nat)
    requires IsPes(tasks, pes) && k < |TaskIds(tasks, node)|
    ensures exists t :: 0 <= t < |pes| && pes[t].nodeidx == node && pes[t].localidx == k
  {
    RankOfPosition(tasks, node, k);
    var t := TaskIds(tasks, node)[k];
    assert pes[t].nodeidx == node && pes[t].localidx == k;
  }

  class Handle {
    const version: Version
    var hdr: Header
    var extra: Extra
    var cmds: seq<Cmd>
    var pes: seq<Pe>
    var nodes: seq<NodeRec>
    ghost var tasks: Taskmap
    ghost var hosts: seq<Host>

    function Stored(): Data
      reads this
    {
      Data(extra, cmds, pes, nodes)
    }

    ghost predicate Valid()
      reads this
    {
      && hdr.version == version && Describes(hdr, Stored()) && Fits(version, Stored())
      && IsPes(tasks, pes) && IsNodes(hosts, nodes) && (cmds != [] ==> IsCmds(tasks, cmds))
    }

    constructor (version: Version)
      ensures Valid() && this.version == version && tasks == [] && hosts == [] && cmds == []
    {
      this.version := version;
      hdr := Header(version, 0, 0, 0, 0, 0, 0, 0, 0, 0, 0, 0, 0, 0, 0, 0);
      extra, cmds, pes, nodes, tasks, hosts := Extra([], [], [], []), [], [], [], [], [];
      new;
      SetOffsets();
    }

    /** set_offsets: one running offset over the sections in file order. */
    method SetOffsets()
      modifies `hdr
      ensures Laid(hdr)
      ensures hdr == old(hdr).(totalSize := hdr.totalSize, commOffset := hdr.commOffset, cmdOffset := hdr.cmdOffset,
                               peOffset := hdr.peOffset, nodeOffset := hdr.nodeOffset, nicOffset := hdr.nicOffset,
                               distOffset := hdr.distOffset, statusOffset := hdr.statusOffset)
    {
      var offset := HeaderSize(hdr.version);
      hdr := hdr.(commOffset := offset);
      offset := offset + CommSize(hdr.version) * hdr.ncomms;
      hdr := hdr.(cmdOffset := offset);
      offset := offset + CMD_SIZE * hdr.ncmds;
      hdr := hdr.(peOffset := offset);
      offset := offset + PE_SIZE * hdr.npes;
      hdr := hdr.(nodeOffset := offset);
      offset := offset + NODE_SIZE * hdr.nnodes;
      hdr := hdr.(nicOffset := offset);
      offset := offset + NicSize(hdr.version) * hdr.nnics;
      hdr := hdr.(distOffset := if hdr.ndist > 0 then offset else 0);
      offset := offset + DIST_SIZE * hdr.ndist;
      hdr := hdr.(statusOffset := if hdr.nstatus > 0 then offset else 0);
      offset := offset + STATUS_SIZE * hdr.nstatus;
      hdr := hdr.(totalSize := offset);
    }

    /** op_set_taskmap: the PE records, then the single command record. */
    method SetTaskmap(tasks: Taskmap, cpusPerPe: int)
      requires Valid() && |tasks| < INT_LIMIT && IsInt(cpusPerPe)
      requires forall t :: 0 <= t < |tasks| ==> tasks[t] < INT_LIMIT
      modifies this
      ensures Valid() && this.tasks == tasks && hosts == old(hosts) && extra == old(extra)
      ensures IsCmds(tasks, cmds) && cmds[0].cpusPerPe == cpusPerPe && nodes == old(nodes)
    {
      var max := MaxTasks(tasks);
      TaskCountFits(tasks, max);
      var pes' := MakePes(tasks);
      pes, this.tasks := pes', tasks;
      hdr := hdr.(npes := |tasks|);
      SetOffsets();
      cmds := [Cmd(|tasks|, max, cpusPerPe)];
      hdr := hdr.(ncmds := 1);
      SetOffsets();
    }

    /** op_set_hostlist. */
    method SetHostlist(hosts: seq<Host>)
      requires Valid() && |hosts| < INT_LIMIT
      modifies this
      ensures Valid() && this.hosts == hosts && tasks == old(tasks) && cmds == old(cmds) && extra == old(extra)
    {
      var nodes': seq<NodeRec> := [];
      for i := 0 to |hosts|
        invariant IsNodes(hosts[..i], nodes')
      {
        nodes' := nodes' + [NodeRec(i, Kept(hosts[i]))];
      }
      assert hosts[..|hosts|] == hosts;
      nodes, this.hosts := nodes', hosts;
      hdr := hdr.(nnodes := |hosts|);
      SetOffsets();
    }

    /** op_write: the header and the sections, one after the other. */
    method Write() returns (out: seq<Byte>)
      requires Valid()
      ensures |out| == hdr.totalSize
      ensures HoldsAt(out, hdr.commOffset, CommSize(version), extra.comms)
      ensures HoldsAt(out, hdr.cmdOffset, CMD_SIZE, CmdRecords(cmds))
      ensures HoldsAt(out, hdr.peOffset, PE_SIZE, PeRecords(pes))
      ensures HoldsAt(out, hdr.nodeOffset, NODE_SIZE, NodeRecords(nodes))
      ensures HoldsAt(out, hdr.nicOffset, NicSize(version), extra.nics)
      ensures HoldsAt(out, hdr.distOffset, DIST_SIZE, extra.dist)
      ensures HoldsAt(out, hdr.statusOffset, STATUS_SIZE, extra.status)
      ensures ReadFile(out) == Some(ContentsOf(version, Stored()))
      ensures HeaderReads(out, version)
      ensures version == V5 ==> TrailerReads(out, extra.dist, extra.status)
    {
      var body := EmitAll();
      out := HeaderBytes(hdr) + body;
      HeaderIsRead(hdr, Stored());
      if version == V5 {
        TrailerIsRead(hdr, Stored());
      }
      SectionsInPlace(hdr, Stored());
      FileReadsBack(hdr, Stored());
    }

    method EmitAll() returns (out: seq<Byte>)
      requires Valid()
      ensures out == Emitted(Sections(version, Stored()))
    {
      out := Flat(extra.comms);
      out := out + Flat(CmdRecords(cmds));
      out := out + Flat(PeRecords(pes));
      out := out + Flat(NodeRecords(nodes));
      out := out + Flat(extra.nics);
      out := out + Flat(extra.dist);
      out := out + Flat(extra.status);
      ghost var ss := Sections(version, Stored());
      SevenSections(ss);
    }

    /** op_get_taskmap recovers the task map that was set. */
    method GetTaskmap() returns (r: seq<int>)
      requires Valid()
      ensures r == tasks
    {
      r := [];
      for t := 0 to hdr.npes
        invariant |r| == t && forall u :: 0 <= u < t ==> r[u] == tasks[u]
      {
        r := r + [pes[t].nodeidx];
      }
    }

    /** op_get_hostlist recovers the host names, cut to what the field holds. */
    method GetHostlist() returns (r: seq<Host>)
      requires Valid()
      ensures |r| == |hosts| && forall i :: 0 <= i < |hosts| ==> r[i] == Kept(hosts[i])
      ensures forall i :: 0 <= i < |hosts| ==> r[i] <= hosts[i] && |r[i]| == if |hosts[i]| < 64 then |hosts[i]| else 63
    {
      r := [];
      for i := 0 to hdr.nnodes
        invariant |r| == i && forall j :: 0 <= j < i ==> r[j] == Kept(hosts[j])
      {
        r := r + [nodes[i].hostname];
      }
    }

    /** op_check accepts exactly when the nodes that run tasks are the listed ones. */
    method Check() returns (ok: bool)
      requires Valid()
      ensures ok <==> forall n: nat :: n in tasks <==> n < |hosts|
    {
      for t := 0 to hdr.npes
        invariant forall u :: 0 <= u < t ==> tasks[u] < |hosts|
      {
        if pes[t].nodeidx >= hdr.nnodes {
          assert tasks[t] in tasks;
          return false;
        }
      }
      for i := 0 to hdr.nnodes
        invariant forall n: nat :: n < i ==> n in tasks
      {
        var found := HasPe(nodes[i].nid);
        if !found {
          return false;
        }
      }
      return true;
    }

    method HasPe(nid: int) returns (found: bool)
      requires Valid()
      ensures found <==> nid in tasks
    {
      found := false;
      for t := 0 to hdr.npes
        invariant nid !in tasks[..t]
      {
        if pes[t].nodeidx == nid {
          assert tasks[t] == nid;
          return true;
        }
        assert tasks[..t + 1] == tasks[..t] + [tasks[t]];
      }
      assert tasks[..hdr.npes] == tasks;
    }
  }

  lemma {:induction false} TaskIdsBounded(tasks: Taskmap, node: nat)
    ensures |TaskIds(tasks, node)| <= |tasks|
  {
    if tasks != [] { TaskIdsBounded(tasks[..|tasks| - 1], node); }
  }

  lemma {:induction false} TaskCountFits(tasks: Taskmap, max: nat)
    requires IsMaxTasks(tasks, max)
    ensures max <= |tasks|
  {
    if max > 0 {
      var node: nat :| |TaskIds(tasks, node)| == max;
      TaskIdsBounded(tasks, node);
    }
  }

  /** The loop of set_pes. */
  method MakePes(tasks: Taskmap) returns (pes: seq<Pe>)
    requires |tasks| < INT_LIMIT && forall t :: 0 <= t < |tasks| ==> tasks[t] < INT_LIMIT
    ensures IsPes(tasks, pes) && forall t :: 0 <= t < |pes| ==> PeFits(pes[t])
  {
    pes := [];
    for t := 0 to |tasks|
      invariant |pes| == t && forall u :: 0 <= u < t ==> pes[u] == Pe(Rank(tasks, u), 0, tasks[u]) && PeFits(pes[u])
    {
      var local := LocalIndex(tasks, tasks[t], t);
      TaskIdsBounded(tasks[..t], tasks[t]);
      pes := pes + [Pe(local, 0, tasks[t])];
    }
  }
}
