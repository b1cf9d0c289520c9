/**
 The upload service of lib/adb/adb_sync.c as functions on values: one step per received byte, the file
 system a map from names to contents whose operations may fail at any point.
 */
module Sync {
  import opened Bytes
  import opened Errno
  import opened SyncDisk
  import opened SyncNames
  import opened Text

  const ID_STAT: U32 := 0x54415453
  const ID_SEND: U32 := 0x444e4553
  const ID_DATA: U32 := 0x41544144
  const ID_DONE: U32 := 0x454e4f44
  const ID_QUIT: U32 := 0x54495551

  datatype Phase =
    | RequestHeader | RequestSpec | StatPath | SendHeader | SendData | DrainHeader | DrainData | DiscardAndClose

  datatype Mode = BadMode | Mode(bits: nat)

  datatype Reply = Okay | Fail(reason: string) | Stats(mode: nat, size: nat)

  /**
   Limits, and everything outside the service: whether the n-th file operation works, whether the n-th
   byte can be written, what the router answers to the n-th reply, and how strtoul reads a mode.
   */
  datatype Env = Env(pathMax: nat, dataMax: nat, ok: nat -> bool, writeOk: nat -> bool, answer: nat -> Status,
                     parseMode: string -> Mode)

  /** The disk after an operation, and what each destination was then meant to hold. */
  datatype Snapshot = Snapshot(disk: Disk, held: Disk)

  /**
   The context of one stream, the count of tokens issued and the disk. The rest is history: the token of the
   current upload and the data received for it, the uploads installed and so what each destination is to hold,
   and the disk after every operation.
   */
  datatype State = State(phase: Phase, header: seq<Byte>, remaining: nat, spec: seq<Byte>,
                         path: string, temporary: string, backup: string, fileOpen: bool, temporaryLive: bool,
                         closing: bool, issued: nat, disk: Disk, ops: nat, writes: nat, sends: nat, sent: seq<Reply>,
                         ordinal: nat, received: seq<Byte>, installed: seq<(string, seq<Byte>)>, held: Disk,
                         trace: seq<Snapshot>)

  datatype Outcome = Outcome(state: State, status: Status)

  // ---------- file operations ----------

  /** An operation that left the disk as `disk`. */
  function Did(s: State, disk: Disk): State {
    s.(disk := disk, ops := s.ops + 1, trace := s.trace + [Snapshot(disk, s.held)])
  }

  /** path_exists */
  predicate Exists(e: Env, s: State, name: string) { e.ok(s.ops) && name in s.disk }

  function Looked(s: State): State { s.(ops := s.ops + 1) }

  predicate CanRename(e: Env, s: State, from: string, to: string) {
    e.ok(s.ops) && from in s.disk && !(to in s.disk && s.disk[to].Folder?)
  }

  function TryRename(e: Env, s: State, from: string, to: string): State {
    Did(s, if CanRename(e, s, from, to) then Moved(s.disk, from, to) else s.disk)
  }

  function TryUnlink(e: Env, s: State, name: string): State {
    Did(s, if e.ok(s.ops) && Removable(s.disk, name) then s.disk - {name} else s.disk)
  }

  predicate CanCreate(e: Env, s: State, name: string) {
    e.ok(s.ops) && !(name in s.disk && s.disk[name].Folder?)
  }

  // ---------- replies and failures ----------

  function Send(e: Env, s: State, reply: Reply): State {
    s.(sends := s.sends + 1, sent := if e.answer(s.sends) == Ok then s.sent + [reply] else s.sent)
  }

  /** cleanup_partial */
  function CleanupPartial(e: Env, s: State): State {
    var c := if s.fileOpen then Did(s, s.disk).(fileOpen := false) else s;
    if c.temporaryLive then TryUnlink(e, c, c.temporary).(temporaryLive := false) else c
  }

  /** fail_transfer */
  function FailTransfer(e: Env, s: State, reason: string, drain: Phase): Outcome {
    var c := CleanupPartial(e, s);
    var status := e.answer(c.sends);
    var t := Send(e, c, Fail(reason));
    if status != Ok then Outcome(t, status) else Outcome(t.(phase := drain), Ok)
  }

  // ---------- starting an upload ----------

  /** The n-th token; the counter has 32 bits. */
  function Token(n: nat): U32 { n % 0x1_0000_0000 }

  /** The side names for the next token. */
  function NextNames(s: State): State {
    var token := Token(s.issued + 1);
    s.(issued := s.issued + 1, ordinal := s.issued + 1,
       temporary := Temporary(s.path, token), backup := Backup(s.path, token))
  }

  /** One attempt of choose_side_paths; EEXIST asks for another. */
  function TryNames(e: Env, s: State): Outcome {
    var t := NextNames(s);
    if |t.temporary| >= e.pathMax + SIDE_SUFFIX_LEN || |t.backup| >= e.pathMax + SIDE_SUFFIX_LEN then
      Outcome(t, ENAMETOOLONG)
    else if Exists(e, t, t.temporary) then Outcome(Looked(t), EEXIST)
    else Outcome(Looked(Looked(t)), if Exists(e, Looked(t), t.backup) then EEXIST else Ok)
  }

  /** choose_side_paths, with `left` attempts to go. */
  function ChooseSidePaths(e: Env, s: State, left: nat): Outcome
    decreases left
  {
    if left == 0 then Outcome(s, EEXIST)
    else
      var r := TryNames(e, s);
      if r.status != EEXIST then r else ChooseSidePaths(e, r.state, left - 1)
  }

  /** strrchr for a comma: its position, or -1. */
  function LastComma(text: string): (k: int)
    ensures -1 <= k < |text| && (k >= 0 ==> text[k] == ',')
  {
    if text == "" then -1
    else if text[|text| - 1] == ',' then |text| - 1
    else LastComma(text[..|text| - 1])
  }

  predicate RegularMode(m: Mode) {
    m.Mode? && m.bits < 0x1_0000_0000 && (m.bits / 0x1000 % 16 == 0 || m.bits / 0x1000 % 16 == 8)
  }

  /** What is wrong with a SEND request before any file is looked at; empty if nothing is. */
  function SpecFault(e: Env, text: string): string {
    var k := LastComma(text);
    if '\0' in text then "NUL in SEND path"
    else if k <= 0 || k + 1 == |text| then "SEND requires path,mode"
    else
      var m := e.parseMode(text[k + 1..]);
      if m.BadMode? || m.bits >= 0x1_0000_0000 then "invalid SEND mode"
      else if !RegularMode(m) then "only regular files supported"
      else if !Allowed(text[..k], e.pathMax) then "path outside /STORAGE:"
      else ""
  }

  /** The staging file has been created and opened. */
  function Opened(s: State): State {
    var t := Did(s, s.disk[s.temporary := File([])]);
    t.(fileOpen := true, temporaryLive := true, phase := SendHeader, received := [])
  }

  /** The end of start_send: the staging file is created. */
  function CreateStaging(e: Env, s: State): Outcome {
    var d := Looked(s);
    if Exists(e, s, s.path) && s.disk[s.path].Folder? then FailTransfer(e, d, "destination is not a file", DrainHeader)
    else if !CanCreate(e, d, d.temporary) then
      FailTransfer(e, Did(d, d.disk), "cannot create partial file", DrainHeader)
    else Outcome(Opened(d), Ok)
  }

  /** The rest of start_send, for a destination that is allowed. */
  function StageUpload(e: Env, s: State): Outcome {
    var r := ChooseSidePaths(e, s, 32);
    if r.status != Ok then
      FailTransfer(e, r.state, if r.status == ENAMETOOLONG then "path too long" else "no free staging name",
                   DrainHeader)
    else CreateStaging(e, r.state)
  }

  /** start_send. The comma is overwritten once the request has been split there; the text is kept only on an error. */
  function StartSend(e: Env, s: State): Outcome {
    var text := Chars(s.spec);
    var k := LastComma(text);
    var fault := SpecFault(e, text);
    var left := if '\0' in text || k <= 0 || k + 1 == |text| then s.spec else s.spec[k := 0];
    var t := s.(spec := []);
    var r := if fault != "" then FailTransfer(e, t, fault, DrainHeader) else StageUpload(e, t.(path := text[..k]));
    if r.status == Ok then r else Outcome(r.state.(spec := left), r.status)
  }

  // ---------- STAT ----------

  predicate StatScanOk(t: string, i: nat)
    requires i < |t|
  {
    && PlainChar(t[i])
    && (t[i] == '/' ==> !(i + 1 < |t| && t[i + 1] == '/'))
    && (i == 0 || t[i - 1] == '/' ==> !DotsAt(t[i..]))
  }

  /** sync_stat_path_allowed */
  predicate StatAllowed(path: string, pathMax: nat) {
    && |ROOT| <= |path| < pathMax && StartsWith(path, ROOT)
    && var t := path[|ROOT|..]; forall i :: 0 <= i < |t| ==> StatScanOk(t, i)
  }

  /** The answer to STAT: zeros unless the path is allowed and there is something. */
  function StatsOf(e: Env, s: State, path: string): Reply {
    if '\0' in path || !StatAllowed(path, e.pathMax) || !Exists(e, s, path) then Stats(0, 0)
    else if s.disk[path].Folder? then Stats(0x41ED, 0)
    else Stats(0x81A4, if |s.disk[path].bytes| < 0x1_0000_0000 then |s.disk[path].bytes| else 0xFFFF_FFFF)
  }

  /** send_stat */
  function SendStat(e: Env, s: State): Outcome {
    var path := Chars(s.spec);
    var t := if '\0' in path || !StatAllowed(path, e.pathMax) then s else Looked(s);
    Outcome(Send(e, t.(spec := [], phase := RequestHeader), StatsOf(e, s, path)), e.answer(s.sends))
  }

  // ---------- finishing an upload ----------

  /** The staging file takes the place of the destination, which was moved aside if there was one. */
  function InstallStaged(e: Env, s: State, had: bool): Outcome {
    if !CanRename(e, s, s.temporary, s.path) then
      var c := Did(s, s.disk);
      Outcome(if had then TryRename(e, c, s.backup, s.path) else c, EIO)
    else
      var n := s.(installed := s.installed + [(s.path, s.received)], held := s.held[s.path := File(s.received)]);
      var c := TryRename(e, n, s.temporary, s.path).(temporaryLive := false);
      Outcome(if had then TryUnlink(e, c, s.backup) else c, Ok)
  }

  /** replace_destination. Closing a file that is closed already succeeds. */
  function ReplaceDestination(e: Env, s: State): Outcome {
    var closed := Did(s, s.disk).(fileOpen := false);
    if s.fileOpen && !e.ok(s.ops) then Outcome(closed, EIO)
    else
      var had := Exists(e, closed, s.path);
      var a := Looked(closed);
      if had && !CanRename(e, a, s.path, s.backup) then Outcome(Did(a, a.disk), EIO)
      else InstallStaged(e, if had then TryRename(e, a, s.path, s.backup) else a, had)
  }

  /** finish_send */
  function FinishSend(e: Env, s: State): Outcome {
    var r := ReplaceDestination(e, s);
    if r.status != Ok then FailTransfer(e, r.state, "cannot install completed file", DrainHeader)
    else
      var t := Send(e, r.state, Okay);
      var status := e.answer(r.state.sends);
      Outcome(if status == Ok then t.(phase := RequestHeader) else t, status)
  }

  // ---------- headers ----------

  function RequestArrived(e: Env, s: State, id: U32, value: U32): Outcome {
    if id == ID_QUIT && value == 0 then Outcome(s.(closing := true), Ok)
    else if (id == ID_SEND || id == ID_STAT) && value != 0 && value < e.pathMax + 16 then
      Outcome(s.(remaining := value, spec := [], phase := if id == ID_SEND then RequestSpec else StatPath), Ok)
    else
      var t := Send(e, s, Fail("only bounded STAT and SEND are supported"));
      if e.answer(s.sends) != Ok then Outcome(t, EIO)
      else Outcome(t.(phase := DiscardAndClose, remaining := 0, closing := true), Ok)
  }

  function DrainArrived(e: Env, s: State, id: U32, value: U32): Outcome {
    if id == ID_DONE then Outcome(s.(phase := RequestHeader), Ok)
    else if id != ID_DATA || value > e.dataMax then Outcome(s.(closing := true), Ok)
    else Outcome(s.(remaining := value, phase := if value == 0 then DrainHeader else DrainData), Ok)
  }

  function RecordArrived(e: Env, s: State, id: U32, value: U32): Outcome {
    if id == ID_DONE then FinishSend(e, s)
    else if id != ID_DATA || value > e.dataMax then
      var r := FailTransfer(e, s, "invalid or oversized DATA", DiscardAndClose);
      Outcome(r.state.(closing := true), r.status)
    else Outcome(s.(remaining := value, phase := if value == 0 then SendHeader else SendData), Ok)
  }

  /** process_header */
  function ProcessHeader(e: Env, s: State, h: seq<Byte>): Outcome
    requires |h| == 8
  {
    var id, value := Get32(h[..4]), Get32(h[4..]);
    var t := s.(header := []);
    if s.phase == RequestHeader then RequestArrived(e, t, id, value)
    else if s.phase == DrainHeader then DrainArrived(e, t, id, value)
    else RecordArrived(e, t, id, value)
  }

  // ---------- one byte ----------

  predicate HeaderPhase(p: Phase) { p == RequestHeader || p == SendHeader || p == DrainHeader }

  function TakeHeaderByte(e: Env, s: State, b: Byte): Outcome {
    var h := s.header + [b];
    if |h| == 8 then ProcessHeader(e, s, h) else Outcome(s.(header := h), Ok)
  }

  function TakeSpecByte(e: Env, s: State, b: Byte): Outcome
    requires s.remaining > 0
  {
    var t := s.(spec := s.spec + [b], remaining := s.remaining - 1);
    if t.remaining > 0 then Outcome(t, Ok) else if s.phase == StatPath then SendStat(e, t) else StartSend(e, t)
  }

  function Grown(s: State, b: Byte): Disk {
    if s.temporary in s.disk && s.disk[s.temporary].File? then
      s.disk[s.temporary := File(s.disk[s.temporary].bytes + [b])]
    else s.disk
  }

  /** A byte of data is written. */
  function Took(s: State, b: Byte): State
    requires s.remaining > 0
  {
    s.(disk := Grown(s, b), trace := s.trace + [Snapshot(Grown(s, b), s.held)], writes := s.writes + 1,
       received := s.received + [b], remaining := s.remaining - 1)
  }

  /** A write that fails; `lost` bytes of the record are dropped with it. */
  function WriteFails(e: Env, s: State, lost: nat): Outcome
    requires lost <= s.remaining
  {
    var left := s.remaining - lost;
    var r := FailTransfer(e, s.(remaining := left), "write failed", if left == 0 then DrainHeader else DrainData);
    if r.status == Ok then r else Outcome(r.state, EIO)
  }

  /** `behind` bytes of the same packet follow; they are lost with this one when even the failure cannot be reported. */
  function TakeDataByte(e: Env, s: State, b: Byte, behind: nat): Outcome
    requires s.remaining > 0
  {
    if s.fileOpen && e.writeOk(s.writes) then
      var t := Took(s, b);
      Outcome(if t.remaining == 0 then t.(phase := SendHeader) else t, Ok)
    else
      var t := if s.fileOpen then s.(writes := s.writes + 1) else s;
      var r := WriteFails(e, t, 1);
      if r.status == Ok then r
      else WriteFails(e, t, if 1 + behind <= s.remaining then 1 + behind else s.remaining)
  }

  function TakeDrainByte(s: State): State
    requires s.remaining > 0
  {
    s.(remaining := s.remaining - 1, phase := if s.remaining == 1 then DrainHeader else DrainData)
  }

  /** A record that ended with an unreported write failure; the file is closed already. */
  predicate Stalled(s: State) { s.phase == SendData && s.remaining == 0 }

  /** A complete SEND request whose refusal could not be reported; it is looked at again. */
  predicate Retrying(s: State) { s.phase == RequestSpec && s.remaining == 0 }

  /** What happens before the next byte is looked at. */
  function Settle(e: Env, s: State): Outcome {
    if Stalled(s) then WriteFails(e, s, 0) else if Retrying(s) then StartSend(e, s) else Outcome(s, Ok)
  }

  /** One byte. */
  function Step(e: Env, s: State, b: Byte, behind: nat): Outcome {
    var r := Settle(e, s);
    var t := r.state;
    if r.status != Ok then r
    else if HeaderPhase(t.phase) then TakeHeaderByte(e, t, b)
    else if t.phase == DiscardAndClose || t.remaining == 0 then Outcome(t, Ok)
    else if t.phase == SendData then TakeDataByte(e, t, b, behind)
    else if t.phase == DrainData then Outcome(TakeDrainByte(t), Ok)
    else TakeSpecByte(e, t, b)
  }

  /** sync_write: an error ends the packet. */
  function Feed(e: Env, s: State, packet: seq<Byte>): Outcome
    decreases packet
  {
    if packet == [] then Outcome(s, Ok)
    else
      var r := Step(e, s, packet[0], |packet| - 1);
      if r.status != Ok then r else Feed(e, r.state, packet[1..])
  }

  // ---------- sessions ----------

  /** sync_open: everything but the token counter and the disk starts afresh. */
  function Fresh(s: State): State {
    s.(phase := RequestHeader, header := [], remaining := 0, spec := [], path := "", temporary := "", backup := "",
       fileOpen := false, temporaryLive := false, closing := false, ordinal := 0, received := [])
  }

  /** sync_close */
  function CloseSession(e: Env, s: State): State { Fresh(CleanupPartial(e, s)) }

  datatype Event = Packet(bytes: seq<Byte>) | Close

  function Act(e: Env, s: State, event: Event): State {
    if event.Close? then CloseSession(e, s) else Feed(e, s, event.bytes).state
  }

  function Run(e: Env, s: State, events: seq<Event>): State {
    if events == [] then s else Act(e, Run(e, s, events[..|events| - 1]), events[|events| - 1])
  }
}
