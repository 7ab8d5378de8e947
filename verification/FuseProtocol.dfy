/** The FUSE proxy messages. The guest encodes requests and decodes responses
    (vm-agent/src/fuse/protocol.rs); the host decodes requests and encodes responses
    (crates/nilbox-core/src/file_proxy/protocol.rs). Texts are their UTF-8 bytes; `utf8` is
    the validity test of `String::from_utf8`. Where a read past the end of a payload would
    panic, the decoder fails: the reading task ends either way. */
module FuseProtocol {
  import opened Bytes
  import opened Framing

  type Utf8 = seq<byte> -> bool

  const MAGIC: u32 := 0x4655_5345
  const HEADER_SIZE := 10
  const MAX_PAYLOAD_SIZE := 0x100_0000

  // ----- payload fields -----

  datatype Field =
    | U8(v8: byte) | U16(v16: u16) | U32(v32: u32) | U64(v64: u64)
    | Text16(text: seq<byte>)    // two-byte length, then the bytes
    | Text32(data: seq<byte>)    // four-byte length, then the bytes

  datatype Kind = K8 | K16 | K32 | K64 | KText16 | KText32

  function KindOf(f: Field): Kind {
    match f
    case U8(_) => K8
    case U16(_) => K16
    case U32(_) => K32
    case U64(_) => K64
    case Text16(_) => KText16
    case Text32(_) => KText32
  }

  predicate Fits(f: Field) {
    (f.Text16? ==> |f.text| < 0x1_0000) && (f.Text32? ==> |f.data| < 0x1_0000_0000)
  }

  /** Lengths are cut to the width of their field. */
  function Put(f: Field): seq<byte> {
    match f
    case U8(v) => Le(v, 1)
    case U16(v) => Le(v, 2)
    case U32(v) => Le(v, 4)
    case U64(v) => Le(v, 8)
    case Text16(b) => Le(|b|, 2) + b
    case Text32(b) => Le(|b|, 4) + b
  }

  function PutAll(fs: seq<Field>): seq<byte> {
    if fs == [] then [] else Put(fs[0]) + PutAll(fs[1..])
  }

  datatype Got<T> = Got(value: T, rest: seq<byte>) | Short

  function Get8(p: seq<byte>): Got<byte> { if |p| < 1 then Short else Got(p[0], p[1..]) }

  function Get16(p: seq<byte>): Got<u16> {
    if |p| < 2 then Short else LeValBound(p[..2]); FieldBounds(); Got(LeVal(p[..2]), p[2..])
  }

  function Get32(p: seq<byte>): Got<u32> {
    if |p| < 4 then Short else LeValBound(p[..4]); FieldBounds(); Got(LeVal(p[..4]), p[4..])
  }

  function Get64(p: seq<byte>): Got<u64> {
    if |p| < 8 then Short else LeValBound(p[..8]); FieldBounds(); Got(LeVal(p[..8]), p[8..])
  }

  function SplitTo(p: seq<byte>, n: nat): Got<seq<byte>> {
    if |p| < n then Short else Got(p[..n], p[n..])
  }

  function Take(k: Kind, p: seq<byte>): Got<Field> {
    match k
    case K8 => (match Get8(p) case Short => Short case Got(v, r) => Got(U8(v), r))
    case K16 => (match Get16(p) case Short => Short case Got(v, r) => Got(U16(v), r))
    case K32 => (match Get32(p) case Short => Short case Got(v, r) => Got(U32(v), r))
    case K64 => (match Get64(p) case Short => Short case Got(v, r) => Got(U64(v), r))
    case KText16 =>
      (match Get16(p)
       case Short => Short
       case Got(n, q) => match SplitTo(q, n) case Short => Short case Got(b, r) => Got(Text16(b), r))
    case KText32 =>
      (match Get32(p)
       case Short => Short
       case Got(n, q) => match SplitTo(q, n) case Short => Short case Got(b, r) => Got(Text32(b), r))
  }

  function TakeAll(ks: seq<Kind>, p: seq<byte>): Got<seq<Field>> {
    if ks == [] then Got([], p)
    else match Take(ks[0], p)
      case Short => Short
      case Got(f, q) => match TakeAll(ks[1..], q) case Short => Short case Got(fs, r) => Got([f] + fs, r)
  }

  function KindsOf(fs: seq<Field>): (ks: seq<Kind>)
    ensures |ks| == |fs|
  {
    seq(|fs|, i requires 0 <= i < |fs| => KindOf(fs[i]))
  }

  lemma LeFront(n: nat, w: nat, x: seq<byte>)
    requires n < Pow256(w)
    ensures |Le(n, w) + x| >= w && LeVal((Le(n, w) + x)[..w]) == n && (Le(n, w) + x)[w..] == x
  {
    LeRoundTrip(n, w);
    assert (Le(n, w) + x)[..w] == Le(n, w);
  }

  lemma TakeInvertsPut(f: Field, x: seq<byte>)
    requires Fits(f)
    ensures Take(KindOf(f), Put(f) + x) == Got(f, x)
  {
    FieldBounds();
    match f
    case U8(v) => assert Le(v, 1) == [v];
    case U16(v) => LeFront(v, 2, x);
    case U32(v) => LeFront(v, 4, x);
    case U64(v) => LeFront(v, 8, x);
    case Text16(b) =>
      LeFront(|b|, 2, b + x);
      ConcatAssoc(Le(|b|, 2), b, x);
      SplitFront(b, x);
    case Text32(b) =>
      LeFront(|b|, 4, b + x);
      ConcatAssoc(Le(|b|, 4), b, x);
      SplitFront(b, x);
  }

  lemma SplitFront(b: seq<byte>, x: seq<byte>)
    ensures (b + x)[..|b|] == b && (b + x)[|b|..] == x
  {
  }

  ghost predicate AllFit(fs: seq<Field>) { forall i :: 0 <= i < |fs| ==> Fits(fs[i]) }

  lemma {:induction false} TakeAllInvertsPutAll(fs: seq<Field>, x: seq<byte>)
    requires AllFit(fs)
    ensures TakeAll(KindsOf(fs), PutAll(fs) + x) == Got(fs, x)
  {
    if fs == [] {
      assert PutAll(fs) + x == x;
    } else {
      var more := PutAll(fs[1..]) + x;
      TakeAllInvertsPutAll(fs[1..], x);
      ConcatAssoc(Put(fs[0]), PutAll(fs[1..]), x);
      TakeInvertsPut(fs[0], more);
      FirstKind(fs);
      TakeFirst(KindsOf(fs), PutAll(fs) + x, fs[0], more);
      assert [fs[0]] + fs[1..] == fs;
    }
  }

  lemma FirstKind(fs: seq<Field>)
    requires fs != []
    ensures KindsOf(fs)[0] == KindOf(fs[0]) && KindsOf(fs)[1..] == KindsOf(fs[1..])
  {
  }

  lemma TakeFirst(ks: seq<Kind>, p: seq<byte>, f: Field, q: seq<byte>)
    requires ks != [] && Take(ks[0], p) == Got(f, q)
    ensures TakeAll(ks, p) == match TakeAll(ks[1..], q) case Short => Short case Got(fs, r) => Got([f] + fs, r)
  {
  }

  // ----- the envelope -----

  datatype Envelope = Envelope(op: u16, payload: seq<byte>)

  function Wrap(e: Envelope): seq<byte> {
    Be(MAGIC, 4) + (Le(e.op, 2) + (Le(|e.payload|, 4) + e.payload))
  }

  /** The header checks both decoders make before they look at the payload. */
  function Unwrap(src: seq<byte>): Outcome<Envelope> {
    if |src| < HEADER_SIZE then NeedMore
    else if BeVal(src[..4]) != MAGIC then Fail
    else
      LeValBound(src[4..6]);
      FieldBounds();
      var length := LeVal(src[6..10]);
      if length > MAX_PAYLOAD_SIZE then Fail
      else if |src| < HEADER_SIZE + length then NeedMore
      else Item(Envelope(LeVal(src[4..6]), src[HEADER_SIZE..HEADER_SIZE + length]), HEADER_SIZE + length)
  }

  lemma UnwrapIncremental()
    ensures Incremental(Unwrap) && Unwrap([]).NeedMore?
  {
    forall b, x ensures Decided(Unwrap, b, x) {
      if |b| >= HEADER_SIZE {
        assert (b + x)[..4] == b[..4] && (b + x)[4..6] == b[4..6] && (b + x)[6..10] == b[6..10];
        var n := HEADER_SIZE + LeVal(b[6..10]);
        assert n <= |b| ==> (b + x)[HEADER_SIZE..n] == b[HEADER_SIZE..n];
      }
    }
  }

  lemma WrapLayout(e: Envelope, x: seq<byte>)
    ensures var b := Wrap(e) + x;
      && |Wrap(e)| == HEADER_SIZE + |e.payload|
      && b[..4] == Be(MAGIC, 4) && b[4..6] == Le(e.op, 2) && b[6..10] == Le(|e.payload|, 4)
      && b[10..10 + |e.payload|] == e.payload && b[10 + |e.payload|..] == x
  {
    Layout(Be(MAGIC, 4), Le(e.op, 2), Le(|e.payload|, 4), e.payload, x);
  }

  lemma Layout(magic: seq<byte>, op: seq<byte>, length: seq<byte>, payload: seq<byte>, x: seq<byte>)
    requires |magic| == 4 && |op| == 2 && |length| == 4
    ensures var e := magic + (op + (length + payload));
      var b := e + x;
      && |e| == 10 + |payload| && b[..4] == magic && b[4..6] == op && b[6..10] == length
      && b[10..10 + |payload|] == payload && b[10 + |payload|..] == x
  {
  }

  lemma UnwrapBound(src: seq<byte>)
    ensures Unwrap(src).Item? ==>
      Unwrap(src).used == HEADER_SIZE + |Unwrap(src).item.payload| && |Unwrap(src).item.payload| <= MAX_PAYLOAD_SIZE
  {
  }

  /** An envelope reads back if and only if its payload is at most 16 MB. A larger one is
      rejected, unless it is so large that its length is cut to 32 bits. */
  lemma UnwrapInvertsWrap(e: Envelope, x: seq<byte>)
    ensures Unwrap(Wrap(e) + x) == Item(e, |Wrap(e)|) <==> |e.payload| <= MAX_PAYLOAD_SIZE
    ensures MAX_PAYLOAD_SIZE < |e.payload| < 0x1_0000_0000 ==> Unwrap(Wrap(e) + x).Fail?
  {
    WrapLayout(e, x);
    UnwrapBound(Wrap(e) + x);
    FieldBounds();
    BeRoundTrip(MAGIC, 4);
    LeRoundTrip(e.op, 2);
    if |e.payload| < 0x1_0000_0000 {
      LeRoundTrip(|e.payload|, 4);
    }
  }

  /** Two envelopes never start alike unless they are the same. */
  lemma WrapPrefixFree(e: Envelope, f: Envelope, x: seq<byte>, y: seq<byte>)
    requires |e.payload| < 0x1_0000_0000 && |f.payload| < 0x1_0000_0000
    requires Wrap(e) + x == Wrap(f) + y
    ensures e == f && x == y
  {
    WrapLayout(e, x);
    WrapLayout(f, y);
    FieldBounds();
    LeRoundTrip(e.op, 2);
    LeRoundTrip(f.op, 2);
    LeRoundTrip(|e.payload|, 4);
    LeRoundTrip(|f.payload|, 4);
  }

  lemma {:induction false} TakeAllKinds(ks: seq<Kind>, p: seq<byte>)
    ensures TakeAll(ks, p).Got? ==> KindsOf(TakeAll(ks, p).value) == ks
  {
    if ks == [] || Take(ks[0], p).Short? {
    } else {
      TakeAllKinds(ks[1..], Take(ks[0], p).rest);
      assert KindOf(Take(ks[0], p).value) == ks[0];
      assert ks == [ks[0]] + ks[1..];
    }
  }

  /** What is read back always fits its length fields. */
  lemma TakeFits(k: Kind, p: seq<byte>)
    ensures Take(k, p).Got? ==> Fits(Take(k, p).value)
  {
  }

  lemma {:induction false} TakeAllFit(ks: seq<Kind>, p: seq<byte>)
    ensures TakeAll(ks, p).Got? ==> AllFit(TakeAll(ks, p).value)
  {
    if ks == [] || Take(ks[0], p).Short? {
    } else {
      TakeFits(ks[0], p);
      TakeAllFit(ks[1..], Take(ks[0], p).rest);
    }
  }

  // ----- requests: guest to host -----

  datatype Request =
    | Open(requestId: u64, flags: u32, mode: u32, path: seq<byte>)
    | Read(requestId: u64, fd: u64, offset: u64, size: u32)
    | Write(requestId: u64, fd: u64, offset: u64, data: seq<byte>)
    | Close(requestId: u64, fd: u64)
    | Readdir(requestId: u64, fd: u64, offset: u64, maxEntries: u32)
    | Stat(requestId: u64, path: seq<byte>)
    | Mkdir(requestId: u64, mode: u32, path: seq<byte>)
    | Remove(requestId: u64, isDir: bool, path: seq<byte>)
    | Rename(requestId: u64, oldPath: seq<byte>, newPath: seq<byte>)
    | Truncate(requestId: u64, path: seq<byte>, newSize: u64)
    | PathQuery(requestId: u64)
    | Ping(requestId: u64)

  function OpOf(r: Request): u16 {
    match r
    case Open(_, _, _, _) => 0x0001
    case Read(_, _, _, _) => 0x0002
    case Write(_, _, _, _) => 0x0003
    case Close(_, _) => 0x0004
    case Readdir(_, _, _, _) => 0x0005
    case Stat(_, _) => 0x0006
    case Mkdir(_, _, _) => 0x0007
    case Remove(_, _, _) => 0x0008
    case Rename(_, _, _) => 0x0009
    case Truncate(_, _, _) => 0x000A
    case PathQuery(_) => 0x0011
    case Ping(_) => 0x00F0
  }

  function FieldsOf(r: Request): seq<Field> {
    match r
    case Open(id, flags, mode, path) => [U64(id), U32(flags), U32(mode), Text16(path)]
    case Read(id, fd, offset, size) => [U64(id), U64(fd), U64(offset), U32(size)]
    case Write(id, fd, offset, data) => [U64(id), U64(fd), U64(offset), Text32(data)]
    case Close(id, fd) => [U64(id), U64(fd)]
    case Readdir(id, fd, offset, max) => [U64(id), U64(fd), U64(offset), U32(max)]
    case Stat(id, path) => [U64(id), Text16(path)]
    case Mkdir(id, mode, path) => [U64(id), U32(mode), Text16(path)]
    case Remove(id, isDir, path) => [U64(id), U8(if isDir then 1 else 0), Text16(path)]
    case Rename(id, from, to) => [U64(id), Text16(from), Text16(to)]
    case Truncate(id, path, size) => [U64(id), U64(size), Text16(path)]
    case PathQuery(id) => [U64(id)]
    case Ping(id) => [U64(id)]
  }

  function RequestKinds(op: u16): Option<seq<Kind>> {
    match op
    case 0x0001 => Some([K64, K32, K32, KText16])
    case 0x0002 => Some([K64, K64, K64, K32])
    case 0x0003 => Some([K64, K64, K64, KText32])
    case 0x0004 => Some([K64, K64])
    case 0x0005 => Some([K64, K64, K64, K32])
    case 0x0006 => Some([K64, KText16])
    case 0x0007 => Some([K64, K32, KText16])
    case 0x0008 => Some([K64, K8, KText16])
    case 0x0009 => Some([K64, KText16, KText16])
    case 0x000A => Some([K64, K64, KText16])
    case 0x0011 => Some([K64])
    case 0x00F0 => Some([K64])
    case _ => None
  }

  /** The host's reading of the fields; texts must be valid UTF-8. */
  function BuildRequest(op: u16, fs: seq<Field>): Request
    requires RequestKinds(op) == Some(KindsOf(fs))
  {
    assert forall i :: 0 <= i < |fs| ==> KindsOf(fs)[i] == KindOf(fs[i]);
    var id := fs[0].v64;
    if op == 0x0001 then Open(id, fs[1].v32, fs[2].v32, fs[3].text)
    else if op == 0x0002 then Read(id, fs[1].v64, fs[2].v64, fs[3].v32)
    else if op == 0x0003 then Write(id, fs[1].v64, fs[2].v64, fs[3].data)
    else if op == 0x0004 then Close(id, fs[1].v64)
    else if op == 0x0005 then Readdir(id, fs[1].v64, fs[2].v64, fs[3].v32)
    else if op == 0x0006 then Stat(id, fs[1].text)
    else if op == 0x0007 then Mkdir(id, fs[1].v32, fs[2].text)
    else if op == 0x0008 then Remove(id, fs[1].v8 != 0, fs[2].text)
    else if op == 0x0009 then Rename(id, fs[1].text, fs[2].text)
    else if op == 0x000A then Truncate(id, fs[2].text, fs[1].v64)
    else if op == 0x0011 then PathQuery(id)
    else Ping(id)
  }

  predicate TextsValid(utf8: Utf8, fs: seq<Field>) { forall i :: 0 <= i < |fs| && fs[i].Text16? ==> utf8(fs[i].text) }

  function ParseRequest(utf8: Utf8, e: Envelope): Option<Request> {
    match RequestKinds(e.op)
    case None => None
    case Some(ks) =>
      TakeAllKinds(ks, e.payload);
      match TakeAll(ks, e.payload)
      case Short => None
      case Got(fs, _) => if TextsValid(utf8, fs) then Some(BuildRequest(e.op, fs)) else None
  }

  function RequestEnvelope(r: Request): Envelope { Envelope(OpOf(r), PutAll(FieldsOf(r))) }

  function EncodeRequest(r: Request): seq<byte> { Wrap(RequestEnvelope(r)) }

  function DecodeRequest(utf8: Utf8, src: seq<byte>): Outcome<Request> {
    match Unwrap(src)
    case NeedMore => NeedMore
    case Fail => Fail
    case Item(e, n) => match ParseRequest(utf8, e) case None => Fail case Some(r) => Item(r, n)
  }

  /** Paths under 2^16 bytes and a payload under 2^32 bytes. */
  ghost predicate Sendable(r: Request) {
    AllFit(FieldsOf(r)) && |PutAll(FieldsOf(r))| < 0x1_0000_0000
  }

  lemma FieldsBuild(r: Request)
    ensures RequestKinds(OpOf(r)) == Some(KindsOf(FieldsOf(r))) && BuildRequest(OpOf(r), FieldsOf(r)) == r
  {
    var fs := FieldsOf(r);
    assert RequestKinds(OpOf(r)).Some? && |RequestKinds(OpOf(r)).value| == |fs|;
    assert KindsOf(fs) == RequestKinds(OpOf(r)).value;
  }

  lemma ParseInvertsFields(utf8: Utf8, r: Request)
    requires AllFit(FieldsOf(r)) && TextsValid(utf8, FieldsOf(r))
    ensures ParseRequest(utf8, RequestEnvelope(r)) == Some(r)
  {
    FieldsBuild(r);
    TakeAllInvertsPutAll(FieldsOf(r), []);
    assert PutAll(FieldsOf(r)) + [] == PutAll(FieldsOf(r));
  }

  lemma BuiltRequestFits(op: u16, fs: seq<Field>)
    requires RequestKinds(op) == Some(KindsOf(fs)) && AllFit(fs)
    ensures AllFit(FieldsOf(BuildRequest(op, fs)))
  {
    assert forall i :: 0 <= i < |fs| ==> KindsOf(fs)[i] == KindOf(fs[i]) && Fits(fs[i]);
  }

  lemma ParsedRequestFits(utf8: Utf8, e: Envelope)
    ensures ParseRequest(utf8, e).Some? ==> AllFit(FieldsOf(ParseRequest(utf8, e).value))
  {
    if ParseRequest(utf8, e).Some? {
      var ks := RequestKinds(e.op).value;
      TakeAllKinds(ks, e.payload);
      TakeAllFit(ks, e.payload);
      BuiltRequestFits(e.op, TakeAll(ks, e.payload).value);
    }
  }

  /** Across the two programs: the host reads back exactly the request the guest encoded,
      whatever follows it, if and only if its paths are under 2^16 bytes, its data under 2^32
      bytes and its payload at most 16 MB. */
  lemma HostReadsGuest(utf8: Utf8, r: Request, x: seq<byte>)
    requires TextsValid(utf8, FieldsOf(r))
    ensures DecodeRequest(utf8, EncodeRequest(r) + x) == Item(r, |EncodeRequest(r)|) <==>
      AllFit(FieldsOf(r)) && |PutAll(FieldsOf(r))| <= MAX_PAYLOAD_SIZE
    ensures MAX_PAYLOAD_SIZE < |PutAll(FieldsOf(r))| < 0x1_0000_0000 ==> DecodeRequest(utf8, EncodeRequest(r) + x).Fail?
  {
    var e, src := RequestEnvelope(r), EncodeRequest(r) + x;
    UnwrapInvertsWrap(e, x);
    UnwrapBound(src);
    WrapLayout(e, x);
    if AllFit(FieldsOf(r)) {
      ParseInvertsFields(utf8, r);
    }
    if Unwrap(src).Item? {
      ParsedRequestFits(utf8, Unwrap(src).item);
    }
  }

  /** No encoded request is the beginning of a different one. */
  lemma EncodeRequestPrefixFree(r: Request, q: Request, x: seq<byte>, y: seq<byte>)
    requires Sendable(r) && Sendable(q) && EncodeRequest(r) + x == EncodeRequest(q) + y
    ensures r == q && x == y
  {
    WrapPrefixFree(RequestEnvelope(r), RequestEnvelope(q), x, y);
    FieldsBuild(r);
    FieldsBuild(q);
    TakeAllInvertsPutAll(FieldsOf(r), []);
    TakeAllInvertsPutAll(FieldsOf(q), []);
  }

  // ----- responses and notifications: host to guest -----

  datatype DirEntry = DirEntry(fileType: byte, name: seq<byte>)

  datatype Message =
    | Opened(replyTo: u64, status: u16, fd: u64)
    | DataRead(replyTo: u64, status: u16, data: seq<byte>)
    | Written(replyTo: u64, status: u16, written: u32)
    | Closed(replyTo: u64, status: u16)
    | Listing(replyTo: u64, status: u16, entries: seq<DirEntry>)
    | Attributes(replyTo: u64, status: u16, fileType: byte, mode: u32, size: u64, mtime: u64, atime: u64, ctime: u64)
    | MadeDir(replyTo: u64, status: u16)
    | Removed(replyTo: u64, status: u16)
    | Renamed(replyTo: u64, status: u16)
    | Truncated(replyTo: u64, status: u16)
    | PathState(replyTo: u64, status: u16, state: byte, path: seq<byte>)
    | Pong(replyTo: u64)
    | PathChanged(oldPath: seq<byte>, newPath: seq<byte>)
    | PathPending(pendingHandles: u32, timeoutSec: u32)
    | PathReady
    | InvalidateCache
    | Shutdown

  predicate ValidStatus(n: u16) { n <= 0x0A || n in {0x10, 0x11, 0x12, 0xFF} }

  predicate ValidFileType(b: byte) { 1 <= b <= 4 }

  function MessageOp(m: Message): u16 {
    match m
    case Opened(_, _, _) => 0x0001
    case DataRead(_, _, _) => 0x0002
    case Written(_, _, _) => 0x0003
    case Closed(_, _) => 0x0004
    case Listing(_, _, _) => 0x0005
    case Attributes(_, _, _, _, _, _, _, _) => 0x0006
    case MadeDir(_, _) => 0x0007
    case Removed(_, _) => 0x0008
    case Renamed(_, _) => 0x0009
    case Truncated(_, _) => 0x000A
    case PathChanged(_, _) => 0x0010
    case PathState(_, _, _, _) => 0x0011
    case InvalidateCache => 0x0012
    case PathPending(_, _) => 0x0013
    case PathReady => 0x0014
    case Pong(_) => 0x00F1
    case Shutdown => 0x00FF
  }

  function EntryFields(es: seq<DirEntry>): seq<Field> {
    if es == [] then [] else [U8(es[0].fileType), Text16(es[0].name)] + EntryFields(es[1..])
  }

  /** The fields before any directory entries. */
  function HeadFields(m: Message): seq<Field> {
    match m
    case Opened(id, st, fd) => [U64(id), U16(st), U64(fd)]
    case DataRead(id, st, data) => [U64(id), U16(st), Text32(data)]
    case Written(id, st, n) => [U64(id), U16(st), U32(n)]
    case Closed(id, st) => [U64(id), U16(st)]
    case Listing(id, st, es) => [U64(id), U16(st), U32(|es| % 0x1_0000_0000)]
    case Attributes(id, st, ft, mode, size, mtime, atime, ctime) =>
      [U64(id), U16(st), U8(ft), U32(mode), U64(size), U64(mtime), U64(atime), U64(ctime)]
    case MadeDir(id, st) => [U64(id), U16(st)]
    case Removed(id, st) => [U64(id), U16(st)]
    case Renamed(id, st) => [U64(id), U16(st)]
    case Truncated(id, st) => [U64(id), U16(st)]
    case PathState(id, st, state, path) => [U64(id), U16(st), U8(state), Text16(path)]
    case Pong(id) => [U64(id)]
    case PathChanged(from, to) => [Text16(from), Text16(to)]
    case PathPending(n, t) => [U32(n), U32(t)]
    case PathReady => []
    case InvalidateCache => []
    case Shutdown => []
  }

  function TailFields(m: Message): seq<Field> { if m.Listing? then EntryFields(m.entries) else [] }

  function MessageEnvelope(m: Message): Envelope {
    Envelope(MessageOp(m), PutAll(HeadFields(m)) + PutAll(TailFields(m)))
  }

  function EncodeResponse(m: Message): seq<byte> { Wrap(MessageEnvelope(m)) }

  function HeadKinds(op: u16): Option<seq<Kind>> {
    match op
    case 0x0001 => Some([K64, K16, K64])
    case 0x0002 => Some([K64, K16, KText32])
    case 0x0003 => Some([K64, K16, K32])
    case 0x0004 => Some([K64, K16])
    case 0x0005 => Some([K64, K16, K32])
    case 0x0006 => Some([K64, K16, K8, K32, K64, K64, K64, K64])
    case 0x0007 => Some([K64, K16])
    case 0x0008 => Some([K64, K16])
    case 0x0009 => Some([K64, K16])
    case 0x000A => Some([K64, K16])
    case 0x0010 => Some([KText16, KText16])
    case 0x0011 => Some([K64, K16, K8, KText16])
    case 0x0012 => Some([])
    case 0x0013 => Some([K32, K32])
    case 0x0014 => Some([])
    case 0x00F1 => Some([K64])
    case 0x00FF => Some([])
    case _ => None
  }

  /** The entry loop of a directory listing. */
  function TakeEntries(utf8: Utf8, n: nat, p: seq<byte>): Option<seq<DirEntry>> {
    if n == 0 then Some([])
    else match Get8(p)
      case Short => None
      case Got(ft, q) =>
        if !ValidFileType(ft) then None
        else match Take(KText16, q)
          case Short => None
          case Got(f, r) =>
            if !utf8(f.text) then None
            else match TakeEntries(utf8, n - 1, r)
              case None => None
              case Some(es) => Some([DirEntry(ft, f.text)] + es)
  }

  function BuildMessage(utf8: Utf8, op: u16, fs: seq<Field>, rest: seq<byte>): Option<Message>
    requires HeadKinds(op) == Some(KindsOf(fs))
  {
    assert forall i :: 0 <= i < |fs| ==> KindsOf(fs)[i] == KindOf(fs[i]);
    if op == 0x0012 then Some(InvalidateCache)
    else if op == 0x0014 then Some(PathReady)
    else if op == 0x00FF then Some(Shutdown)
    else if op == 0x00F1 then Some(Pong(fs[0].v64))
    else if op == 0x0010 then Some(PathChanged(fs[0].text, fs[1].text))
    else if op == 0x0013 then Some(PathPending(fs[0].v32, fs[1].v32))
    else BuildReply(utf8, op, fs, rest)
  }

  /** Replies start with the request id and a status, which must be a known one. */
  function BuildReply(utf8: Utf8, op: u16, fs: seq<Field>, rest: seq<byte>): Option<Message>
    requires HeadKinds(op) == Some(KindsOf(fs)) && (op <= 0x0A || op == 0x0011)
  {
    assert forall i :: 0 <= i < |fs| ==> KindsOf(fs)[i] == KindOf(fs[i]);
    var id, st := fs[0].v64, fs[1].v16;
    if !ValidStatus(st) then None
    else if op == 0x0001 then Some(Opened(id, st, fs[2].v64))
    else if op == 0x0002 then Some(DataRead(id, st, fs[2].data))
    else if op == 0x0003 then Some(Written(id, st, fs[2].v32))
    else if op == 0x0004 then Some(Closed(id, st))
    else if op == 0x0005 then
      (match TakeEntries(utf8, fs[2].v32, rest) case None => None case Some(es) => Some(Listing(id, st, es)))
    else if op == 0x0006 then
      Some(Attributes(id, st, if ValidFileType(fs[2].v8) then fs[2].v8 else 4, fs[3].v32, fs[4].v64, fs[5].v64,
                      fs[6].v64, fs[7].v64))
    else if op == 0x0007 then Some(MadeDir(id, st))
    else if op == 0x0008 then Some(Removed(id, st))
    else if op == 0x0009 then Some(Renamed(id, st))
    else if op == 0x000A then Some(Truncated(id, st))
    else Some(PathState(id, st, fs[2].v8, fs[3].text))
  }

  function ParseMessage(utf8: Utf8, e: Envelope): Option<Message> {
    match HeadKinds(e.op)
    case None => None
    case Some(ks) =>
      TakeAllKinds(ks, e.payload);
      match TakeAll(ks, e.payload)
      case Short => None
      case Got(fs, rest) => if TextsValid(utf8, fs) then BuildMessage(utf8, e.op, fs, rest) else None
  }

  function DecodeResponse(utf8: Utf8, src: seq<byte>): Outcome<Message> {
    match Unwrap(src)
    case NeedMore => NeedMore
    case Fail => Fail
    case Item(e, n) => match ParseMessage(utf8, e) case None => Fail case Some(m) => Item(m, n)
  }

  /** What the host's types allow it to send; Shutdown is known to the guest only. */
  ghost predicate Answerable(utf8: Utf8, m: Message) {
    && TextsValid(utf8, HeadFields(m)) && !m.Shutdown?
    && (IsReply(m) ==> ValidStatus(m.status))
    && (m.Listing? ==> forall i :: 0 <= i < |m.entries| ==> GoodEntry(utf8, m.entries[i]))
  }

  /** Texts and lists are within their length fields. */
  ghost predicate Fitting(m: Message) {
    AllFit(HeadFields(m)) && (m.Listing? ==> |m.entries| < 0x1_0000_0000 && ShortNames(m.entries))
  }

  predicate ShortNames(es: seq<DirEntry>) { forall i :: 0 <= i < |es| ==> |es[i].name| < 0x1_0000 }

  predicate Small(m: Message) { |MessageEnvelope(m).payload| <= MAX_PAYLOAD_SIZE }

  /** What the guest makes of a message: a file type it does not know, such as the zero in
      the attributes of a failed stat, becomes "other". */
  function Heard(m: Message): Message {
    if m.Attributes? && !ValidFileType(m.fileType) then m.(fileType := 4) else m
  }

  /** Replies carry a status; a pong does not. */
  predicate IsReply(m: Message) {
    m.Opened? || m.DataRead? || m.Written? || m.Closed? || m.Listing? || m.Attributes? || m.MadeDir? || m.Removed?
    || m.Renamed? || m.Truncated? || m.PathState?
  }

  predicate GoodEntry(utf8: Utf8, e: DirEntry) { ValidFileType(e.fileType) && utf8(e.name) }

  lemma {:induction false} EntriesInvert(utf8: Utf8, es: seq<DirEntry>)
    requires ShortNames(es) && forall i :: 0 <= i < |es| ==> GoodEntry(utf8, es[i])
    ensures TakeEntries(utf8, |es|, PutAll(EntryFields(es))) == Some(es)
  {
    if es == [] {
    } else {
      var e, more := es[0], PutAll(EntryFields(es[1..]));
      EntriesInvert(utf8, es[1..]);
      FirstEntry(es);
      EntryInverts(utf8, e, more, |es| - 1);
      assert es == [e] + es[1..];
    }
  }

  lemma FirstEntry(es: seq<DirEntry>)
    requires es != []
    ensures PutAll(EntryFields(es)) == [es[0].fileType] + (Put(Text16(es[0].name)) + PutAll(EntryFields(es[1..])))
  {
    PutTwo(U8(es[0].fileType), Text16(es[0].name), EntryFields(es[1..]));
    OneByte(es[0].fileType);
  }

  lemma PutTwo(f: Field, g: Field, fs: seq<Field>)
    ensures PutAll([f, g] + fs) == Put(f) + (Put(g) + PutAll(fs))
  {
    assert ([f, g] + fs)[1..] == [g] + fs && ([g] + fs)[1..] == fs;
  }

  lemma OneByte(b: byte)
    ensures Put(U8(b)) == [b]
  {
    assert Le(b, 1) == [b];
  }

  /** One entry comes off the front. */
  lemma EntryInverts(utf8: Utf8, e: DirEntry, more: seq<byte>, n: nat)
    requires GoodEntry(utf8, e) && |e.name| < 0x1_0000
    ensures TakeEntries(utf8, n + 1, [e.fileType] + (Put(Text16(e.name)) + more))
         == match TakeEntries(utf8, n, more) case None => None case Some(es) => Some([e] + es)
  {
    SplitFront([e.fileType], Put(Text16(e.name)) + more);
    TakeInvertsPut(Text16(e.name), more);
  }

  lemma HeadKindsMatch(m: Message)
    ensures HeadKinds(MessageOp(m)) == Some(KindsOf(HeadFields(m)))
  {
    var fs := HeadFields(m);
    assert HeadKinds(MessageOp(m)).Some? && |HeadKinds(MessageOp(m)).value| == |fs|;
    assert KindsOf(fs) == HeadKinds(MessageOp(m)).value;
  }

  lemma HeadBuilds(utf8: Utf8, m: Message, rest: seq<byte>)
    requires IsReply(m) ==> ValidStatus(m.status)
    requires m.Listing? ==> |m.entries| < 0x1_0000_0000 && TakeEntries(utf8, |m.entries|, rest) == Some(m.entries)
    ensures HeadKinds(MessageOp(m)) == Some(KindsOf(HeadFields(m)))
    ensures BuildMessage(utf8, MessageOp(m), HeadFields(m), rest) == Some(Heard(m))
  {
    HeadKindsMatch(m);
    if m.Attributes? {
      AttributesBuild(utf8, m, rest);
    } else if IsReply(m) {
      ReplyBuilds(utf8, m, rest);
    }
  }

  lemma ReplyBuilds(utf8: Utf8, m: Message, rest: seq<byte>)
    requires IsReply(m) && ValidStatus(m.status) && !m.Attributes?
    requires m.Listing? ==> |m.entries| < 0x1_0000_0000 && TakeEntries(utf8, |m.entries|, rest) == Some(m.entries)
    requires HeadKinds(MessageOp(m)) == Some(KindsOf(HeadFields(m)))
    ensures BuildReply(utf8, MessageOp(m), HeadFields(m), rest) == Some(m)
  {
    match m
    case Listing(_, _, _) => ListingBuilds(utf8, m, rest);
    case PathState(_, _, _, _) => DataBuilds(utf8, m, rest);
    case Opened(_, _, _) => DataBuilds(utf8, m, rest);
    case DataRead(_, _, _) => DataBuilds(utf8, m, rest);
    case Written(_, _, _) => DataBuilds(utf8, m, rest);
    case _ => DoneBuilds(utf8, m, rest);
  }

  lemma ListingBuilds(utf8: Utf8, m: Message, rest: seq<byte>)
    requires m.Listing? && ValidStatus(m.status)
    requires |m.entries| < 0x1_0000_0000 && TakeEntries(utf8, |m.entries|, rest) == Some(m.entries)
    requires HeadKinds(MessageOp(m)) == Some(KindsOf(HeadFields(m)))
    ensures BuildReply(utf8, MessageOp(m), HeadFields(m), rest) == Some(m)
  {
    ListingHead(m);
    ListingFrom(utf8, HeadFields(m), m.replyTo, m.status, |m.entries|, rest, m.entries);
  }

  lemma ListingHead(m: Message)
    requires m.Listing? && |m.entries| < 0x1_0000_0000
    ensures HeadFields(m) == [U64(m.replyTo), U16(m.status), U32(|m.entries|)] && MessageOp(m) == 0x0005
  {
    var n := |m.entries|;
    assert n % 0x1_0000_0000 == n;
  }

  lemma ListingFrom(utf8: Utf8, fs: seq<Field>, id: u64, status: u16, n: u32, rest: seq<byte>, es: seq<DirEntry>)
    requires fs == [U64(id), U16(status), U32(n)] && ValidStatus(status) && TakeEntries(utf8, n, rest) == Some(es)
    requires HeadKinds(0x0005) == Some(KindsOf(fs))
    ensures BuildReply(utf8, 0x0005, fs, rest) == Some(Listing(id, status, es))
  {
  }

  lemma DataBuilds(utf8: Utf8, m: Message, rest: seq<byte>)
    requires (m.PathState? || m.Opened? || m.DataRead? || m.Written?) && ValidStatus(m.status)
    requires HeadKinds(MessageOp(m)) == Some(KindsOf(HeadFields(m)))
    ensures BuildReply(utf8, MessageOp(m), HeadFields(m), rest) == Some(m)
  {
  }

  lemma DoneBuilds(utf8: Utf8, m: Message, rest: seq<byte>)
    requires (m.Closed? || m.MadeDir? || m.Removed? || m.Renamed? || m.Truncated?) && ValidStatus(m.status)
    requires HeadKinds(MessageOp(m)) == Some(KindsOf(HeadFields(m)))
    ensures BuildReply(utf8, MessageOp(m), HeadFields(m), rest) == Some(m)
  {
  }

  lemma AttributesBuild(utf8: Utf8, m: Message, rest: seq<byte>)
    requires m.Attributes? && ValidStatus(m.status)
    requires HeadKinds(MessageOp(m)) == Some(KindsOf(HeadFields(m)))
    ensures BuildReply(utf8, MessageOp(m), HeadFields(m), rest) == Some(Heard(m))
  {
  }

  lemma {:induction false} TakenEntriesAreShort(utf8: Utf8, n: nat, p: seq<byte>)
    ensures TakeEntries(utf8, n, p).Some? ==> |TakeEntries(utf8, n, p).value| == n && ShortNames(TakeEntries(utf8, n, p).value)
  {
    if n == 0 || TakeEntries(utf8, n, p).None? {
    } else {
      var q := Get8(p).rest;
      TakeFits(KText16, q);
      TakenEntriesAreShort(utf8, n - 1, Take(KText16, q).rest);
    }
  }

  lemma BuiltMessageFits(utf8: Utf8, op: u16, fs: seq<Field>, rest: seq<byte>)
    requires HeadKinds(op) == Some(KindsOf(fs)) && AllFit(fs)
    ensures BuildMessage(utf8, op, fs, rest).Some? ==> Fitting(BuildMessage(utf8, op, fs, rest).value)
  {
    if op == 0x0005 {
      BuiltListingFits(utf8, op, fs, rest);
    } else if op == 0x0002 || op == 0x0011 || op == 0x0010 {
      BuiltTextFits(utf8, op, fs, rest);
    } else {
      BuiltNumbersFit(utf8, op, fs, rest);
    }
  }

  lemma BuiltListingFits(utf8: Utf8, op: u16, fs: seq<Field>, rest: seq<byte>)
    requires op == 0x0005 && HeadKinds(op) == Some(KindsOf(fs))
    ensures BuildMessage(utf8, op, fs, rest).Some? ==> Fitting(BuildMessage(utf8, op, fs, rest).value)
  {
    var r := BuildMessage(utf8, op, fs, rest);
    if r.Some? {
      var n := BuiltListing(utf8, op, fs, rest);
      TakenEntriesAreShort(utf8, n, rest);
      ListingFits(r.value);
    }
  }

  lemma BuiltListing(utf8: Utf8, op: u16, fs: seq<Field>, rest: seq<byte>) returns (n: u32)
    requires op == 0x0005 && HeadKinds(op) == Some(KindsOf(fs)) && BuildMessage(utf8, op, fs, rest).Some?
    ensures var m := BuildMessage(utf8, op, fs, rest).value; m.Listing? && TakeEntries(utf8, n, rest) == Some(m.entries)
  {
    assert KindsOf(fs)[2] == KindOf(fs[2]);
    n := fs[2].v32;
  }

  lemma ListingFits(m: Message)
    requires m.Listing? && |m.entries| < 0x1_0000_0000 && ShortNames(m.entries)
    ensures Fitting(m)
  {
  }

  lemma BuiltTextFits(utf8: Utf8, op: u16, fs: seq<Field>, rest: seq<byte>)
    requires HeadKinds(op) == Some(KindsOf(fs)) && AllFit(fs) && (op == 0x0002 || op == 0x0011 || op == 0x0010)
    ensures BuildMessage(utf8, op, fs, rest).Some? ==> Fitting(BuildMessage(utf8, op, fs, rest).value)
  {
    assert forall i :: 0 <= i < |fs| ==> KindsOf(fs)[i] == KindOf(fs[i]) && Fits(fs[i]);
  }

  lemma BuiltNumbersFit(utf8: Utf8, op: u16, fs: seq<Field>, rest: seq<byte>)
    requires HeadKinds(op) == Some(KindsOf(fs)) && op != 0x0002 && op != 0x0005 && op != 0x0011 && op != 0x0010
    ensures BuildMessage(utf8, op, fs, rest).Some? ==> Fitting(BuildMessage(utf8, op, fs, rest).value)
  {
    var r := BuildMessage(utf8, op, fs, rest);
    if r.Some? {
      assert forall i :: 0 <= i < |HeadFields(r.value)| ==> !HeadFields(r.value)[i].Text16? && !HeadFields(r.value)[i].Text32?;
    }
  }

  lemma ParsedMessageFits(utf8: Utf8, e: Envelope)
    ensures ParseMessage(utf8, e).Some? ==> Fitting(ParseMessage(utf8, e).value)
  {
    if ParseMessage(utf8, e).Some? {
      var ks := HeadKinds(e.op).value;
      TakeAllKinds(ks, e.payload);
      TakeAllFit(ks, e.payload);
      BuiltMessageFits(utf8, e.op, TakeAll(ks, e.payload).value, TakeAll(ks, e.payload).rest);
    }
  }

  lemma ParseInvertsMessage(utf8: Utf8, m: Message)
    requires Answerable(utf8, m) && Fitting(m)
    ensures ParseMessage(utf8, MessageEnvelope(m)) == Some(Heard(m))
  {
    var tail := PutAll(TailFields(m));
    TakeAllInvertsPutAll(HeadFields(m), tail);
    if m.Listing? {
      EntriesInvert(utf8, m.entries);
    }
    HeadBuilds(utf8, m, tail);
  }

  /** Across the two programs: the guest reads back what the host encoded, whatever bytes
      follow, if and only if texts and lists are within their length fields and the payload is
      at most 16 MB. */
  lemma GuestReadsHost(utf8: Utf8, m: Message, x: seq<byte>)
    requires Answerable(utf8, m)
    ensures DecodeResponse(utf8, EncodeResponse(m) + x) == Item(Heard(m), |EncodeResponse(m)|) <==> Fitting(m) && Small(m)
    ensures !Small(m) && |MessageEnvelope(m).payload| < 0x1_0000_0000 ==> DecodeResponse(utf8, EncodeResponse(m) + x).Fail?
  {
    var e, src := MessageEnvelope(m), EncodeResponse(m) + x;
    UnwrapInvertsWrap(e, x);
    UnwrapBound(src);
    WrapLayout(e, x);
    if Fitting(m) {
      ParseInvertsMessage(utf8, m);
    }
    if Unwrap(src).Item? {
      ParsedMessageFits(utf8, Unwrap(src).item);
    }
    HeardFits(m);
  }

  lemma HeardFits(m: Message)
    ensures Fitting(Heard(m)) ==> Fitting(m)
  {
    if m.Attributes? {
      assert AllFit(HeadFields(m));
    }
  }

  function GuestDecoder(utf8: Utf8): seq<byte> -> Outcome<Message> { b => DecodeResponse(utf8, b) }

  lemma GuestDecoderIncremental(utf8: Utf8)
    ensures Incremental(GuestDecoder(utf8)) && GuestDecoder(utf8)([]).NeedMore?
  {
    UnwrapIncremental();
    forall b, x ensures Decided(GuestDecoder(utf8), b, x) {
      assert Decided(Unwrap, b, x);
    }
  }

  /** One turn of the reader task: append what was read, handle every complete message, and
      stop for good on the first one that does not decode. */
  method ReadMessages(utf8: Utf8, pending: seq<byte>, data: seq<byte>)
    returns (messages: seq<Message>, buf: seq<byte>, failed: bool)
    ensures Incremental(GuestDecoder(utf8))
    ensures Feed(GuestDecoder(utf8), Progress([], pending, false), data)
         == Progress(messages, if failed then [] else buf, failed)
  {
    GuestDecoderIncremental(utf8);
    buf, messages, failed := pending + data, [], false;
    ghost var dec := GuestDecoder(utf8);
    ghost var whole := Drain(dec, buf);
    assert messages + whole.items == whole.items && [] + whole.items == whole.items;
    while true
      invariant whole == Progress(messages + Drain(dec, buf).items, Drain(dec, buf).rest, Drain(dec, buf).failed)
      decreases |buf|
    {
      var next := DecodeResponse(utf8, buf);
      assert next == dec(buf);
      match next {
        case NeedMore => break;
        case Fail =>
          failed := true;
          break;
        case Item(m, n) =>
          OneMore(dec, buf, m, n, messages);
          messages := messages + [m];
          buf := buf[n..];
      }
    }
    assert messages + [] == messages;
  }

  lemma OneMore<T(!new)>(dec: seq<byte> -> Outcome<T>, buf: seq<byte>, m: T, n: nat, before: seq<T>)
    requires Incremental(dec) && dec(buf) == Item(m, n) && n <= |buf|
    ensures var d, rest := Drain(dec, buf), Drain(dec, buf[n..]);
      before + d.items == (before + [m]) + rest.items && d.rest == rest.rest && d.failed == rest.failed
  {
    ConcatAssoc(before, [m], Drain(dec, buf[n..]).items);
  }

  /** The reader handles the same messages however the stream of bytes is cut. */
  lemma ReaderIgnoresCuts(utf8: Utf8, chunks: seq<seq<byte>>, chunks': seq<seq<byte>>)
    requires Concat(chunks) == Concat(chunks')
    ensures Incremental(GuestDecoder(utf8))
    ensures FeedAll(GuestDecoder(utf8), chunks) == FeedAll(GuestDecoder(utf8), chunks')
  {
    GuestDecoderIncremental(utf8);
    ChunkingIrrelevant(GuestDecoder(utf8), chunks);
    ChunkingIrrelevant(GuestDecoder(utf8), chunks');
  }

  /** Every sequence of host messages, cut anywhere, is handled completely and in order. */
  lemma ReaderHandlesAll(utf8: Utf8, messages: seq<Message>, chunks: seq<seq<byte>>)
    requires forall m :: m in messages ==> Answerable(utf8, m) && Fitting(m) && Small(m)
    requires Concat(chunks) == EncodeAll(EncodeResponse, messages)
    ensures Incremental(GuestDecoder(utf8))
    ensures FeedAll(GuestDecoder(utf8), chunks) == Progress(Meant(Heard, messages), [], false)
  {
    GuestDecoderIncremental(utf8);
    forall m, x | m in messages ensures Understood(GuestDecoder(utf8), EncodeResponse, Heard, m, x) {
      GuestReadsHost(utf8, m, x);
    }
    AnyChunkingIsUnderstood(GuestDecoder(utf8), EncodeResponse, Heard, messages, chunks);
  }
}
