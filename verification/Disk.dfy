/** The receiver's files, the acts that change them, and the history of acts of one receive session. */
module Disks {
  import opened Wrappers
  import opened Chunking

  // What the sidecar file <name>.quickdrop.json holds.
  datatype Sidecar = Sidecar(file: FileMetadata, receivedBytes: int)

  // part: <name>.quickdrop.part; synced: its content at the last sync; renewed: the sidecar's ".new" file.
  // A missing sidecar and one that does not parse are both None.
  datatype Disk = Disk(
    part: Option<seq<byte>>, synced: seq<byte>,
    sidecar: Option<Sidecar>, renewed: Option<Sidecar>,
    dest: Option<seq<byte>>)

  datatype Message =
    | Accept
    | ResumeState(receivedBytes: int)
    | FileAck(receivedBytes: int)
    | FileProgress(receivedBytes: int)
    | FileCancel

  // One system call, digest comparison or control message.
  datatype Act =
    | OpenPart(truncate: bool)
    | WritePart(pos: int, data: seq<byte>)
    | SyncPart
    | WriteRenewed(sidecar: Sidecar)
    | ReplaceSidecar
    | CheckDigest(want: string)
    | ClosePart
    | RemoveDest
    | RenamePart
    | RemoveSidecar
    | RemovePart
    | Send(message: Message)
    | Fruitless          // a system call that failed and changed nothing

  // The file handle writes at pos; bytes already there are overwritten.
  function Overwritten(was: seq<byte>, pos: int, data: seq<byte>): seq<byte> {
    if 0 <= pos <= |was| then
      was[..pos] + data + if pos + |data| <= |was| then was[pos + |data|..] else []
    else was
  }

  function Apply(d: Disk, a: Act): Disk {
    match a
    case OpenPart(truncate) => d.(part := Some(if truncate || d.part.None? then [] else d.part.value))
    case WritePart(pos, data) => if d.part.Some? then d.(part := Some(Overwritten(d.part.value, pos, data))) else d
    case SyncPart => if d.part.Some? then d.(synced := d.part.value) else d
    case WriteRenewed(sidecar) => d.(renewed := Some(sidecar))
    case ReplaceSidecar => d.(sidecar := d.renewed, renewed := None)
    case RemoveDest => d.(dest := None)
    case RenamePart => d.(dest := d.part, part := None)
    case RemoveSidecar => d.(sidecar := None)
    case RemovePart => d.(part := None)
    case _ => d
  }

  // The acts of a session in order, starting from the disk it found.
  datatype Trace = Begin(found: Disk) | Then(before: Trace, act: Act)

  // What a session has done so far: its disk, the disk it found, the last receivedBytes of either kind
  // it sent (-1 for none), the digest it last compared its bytes with, its messages oldest first.
  datatype View = View(
    disk: Disk, found: Disk, lastAck: int, lastProgress: int,
    checked: Option<string>, sent: seq<Message>)

  function Next(v: View, a: Act): View {
    match a
    case CheckDigest(want) => v.(checked := Some(want))
    case Send(FileAck(n)) => v.(lastAck := n, sent := v.sent + [a.message])
    case Send(FileProgress(n)) => v.(lastProgress := n, sent := v.sent + [a.message])
    case Send(m) => v.(sent := v.sent + [m])
    case _ => v.(disk := Apply(v.disk, a))
  }

  function ViewOf(t: Trace): View {
    match t
    case Begin(d) => View(d, d, -1, -1, None, [])
    case Then(p, a) => Next(ViewOf(p), a)
  }

  function Now(t: Trace): Disk { ViewOf(t).disk }

  // p is a moment of the session t.
  ghost predicate Moment(p: Trace, t: Trace) {
    p == t || (t.Then? && Moment(p, t.before))
  }
}
