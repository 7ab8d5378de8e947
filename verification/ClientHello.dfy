/** Finding the host name in a TLS ClientHello: `extract_sni` in
    vm-agent/src/outbound/proxy.rs, against the message layout of section 4.1.2 of RFC 8446
    and the server_name extension of section 3 of RFC 6066.
    `utf8` stands for the validity test of `str::from_utf8`. */
module ClientHello {
  import opened Bytes

  type Utf8 = seq<byte> -> bool

  function U16At(b: seq<byte>, i: nat): nat
    requires i + 2 <= |b|
  {
    256 * (b[i] as int) + b[i + 1]
  }

  function U24At(b: seq<byte>, i: nat): nat
    requires i + 3 <= |b|
  {
    0x1_0000 * (b[i] as int) + 256 * (b[i + 1] as int) + b[i + 2]
  }

  function Checked(utf8: Utf8, name: seq<byte>): Option<seq<byte>> {
    if utf8(name) then Some(name) else None
  }

  // ----- the walker -----

  method ExtractSni(utf8: Utf8, data: seq<byte>) returns (r: Option<seq<byte>>)
    ensures r == Sni(utf8, data)
  {
    if |data| < 5 || data[0] != 0x16 { return None; }
    var recordLen := U16At(data, 3);
    if |data| < 5 + recordLen { return None; }
    var hs := data[5..];
    if |hs| == 0 || hs[0] != 0x01 { return None; }
    if |hs| < 4 { return None; }
    var hsLen := U24At(hs, 1);
    if |hs| < 4 + hsLen { return None; }
    r := SearchHello(utf8, hs[4..4 + hsLen]);
  }

  method SearchHello(utf8: Utf8, ch: seq<byte>) returns (r: Option<seq<byte>>)
    ensures r == Extensions(utf8, ch)
  {
    if |ch| < 34 { return None; }
    var pos: nat := 34;
    if pos >= |ch| { return None; }
    pos := pos + 1 + ch[pos];
    if pos + 2 > |ch| { return None; }
    pos := pos + 2 + U16At(ch, pos);
    if pos >= |ch| { return None; }
    pos := pos + 1 + ch[pos];
    if pos + 2 > |ch| { return None; }
    var extTotal := U16At(ch, pos);
    pos := pos + 2;
    r := WalkExtensions(utf8, ch, pos, pos + extTotal);
  }

  method WalkExtensions(utf8: Utf8, ch: seq<byte>, start: nat, extEnd: nat) returns (r: Option<seq<byte>>)
    ensures r == Walk(utf8, ch, start, extEnd)
  {
    var pos := start;
    while pos + 4 <= extEnd && pos + 4 <= |ch|
      invariant Walk(utf8, ch, pos, extEnd) == Walk(utf8, ch, start, extEnd)
      decreases |ch| - pos
    {
      var extType := U16At(ch, pos);
      var extLen := U16At(ch, pos + 2);
      pos := pos + 4;
      if extType == 0x0000 {
        if pos + extLen > |ch| || extLen < 5 { return None; }
        var sni := ch[pos..pos + extLen];
        if sni[2] != 0 { return None; }
        var nameLen := U16At(sni, 3);
        if |sni| < 5 + nameLen { return None; }
        return Checked(utf8, sni[5..5 + nameLen]);
      }
      pos := pos + extLen;
    }
    return None;
  }

  /** The name in the body of a server_name extension. */
  function NameIn(utf8: Utf8, sni: seq<byte>): Option<seq<byte>> {
    if |sni| < 5 || sni[2] != 0 then None
    else
      var nameLen := U16At(sni, 3);
      if |sni| < 5 + nameLen then None else Checked(utf8, sni[5..5 + nameLen])
  }

  /** The search through the extensions from `pos` to `extEnd`. */
  function Walk(utf8: Utf8, ch: seq<byte>, pos: nat, extEnd: nat): Option<seq<byte>>
    decreases |ch| - pos
  {
    if pos + 4 > extEnd || pos + 4 > |ch| then None
    else
      var extLen := U16At(ch, pos + 2);
      if U16At(ch, pos) == 0 then
        if pos + 4 + extLen > |ch| then None else NameIn(utf8, ch[pos + 4..pos + 4 + extLen])
      else Walk(utf8, ch, pos + 4 + extLen, extEnd)
  }

  function Sni(utf8: Utf8, data: seq<byte>): Option<seq<byte>> {
    if |data| < 5 || data[0] != 0x16 || |data| < 5 + U16At(data, 3) then None
    else
      var hs := data[5..];
      if |hs| < 4 || hs[0] != 0x01 || |hs| < 4 + U24At(hs, 1) then None
      else Extensions(utf8, hs[4..4 + U24At(hs, 1)])
  }

  /** Skips session id, cipher suites and compression methods: where the extension block
      starts. */
  function SkipVectors(ch: seq<byte>): (r: Option<nat>)
    ensures r.Some? ==> r.value + 2 <= |ch|
  {
    if |ch| < 35 then None
    else
      var a := 35 + (ch[34] as int);
      if a + 2 > |ch| then None
      else
        var b := a + 2 + U16At(ch, a);
        if b >= |ch| then None
        else
          var c := b + 1 + ch[b];
          if c + 2 > |ch| then None else Some(c)
  }

  function Extensions(utf8: Utf8, ch: seq<byte>): Option<seq<byte>> {
    match SkipVectors(ch)
    case None => None
    case Some(c) => Walk(utf8, ch, c + 2, c + 2 + U16At(ch, c))
  }

  // ----- soundness on arbitrary bytes -----

  /** `name` lies in `ch` at `p`, after a host_name type byte and its own length. */
  ghost predicate NamedAt(ch: seq<byte>, name: seq<byte>, p: nat) {
    && 3 <= p <= p + |name| <= |ch|
    && ch[p..p + |name|] == name && ch[p - 3] == 0 && U16At(ch, p - 2) == |name|
  }

  lemma {:induction false} WalkFindsRealNames(utf8: Utf8, ch: seq<byte>, pos: nat, extEnd: nat)
    requires Walk(utf8, ch, pos, extEnd).Some?
    ensures var name := Walk(utf8, ch, pos, extEnd).value;
      utf8(name) && exists p: nat :: NamedAt(ch, name, p)
    decreases |ch| - pos
  {
    var extLen := U16At(ch, pos + 2);
    if U16At(ch, pos) == 0 {
      var sni := ch[pos + 4..pos + 4 + extLen];
      var nameLen := U16At(sni, 3);
      assert sni[2] == ch[pos + 6] && sni[3] == ch[pos + 7] && sni[4] == ch[pos + 8];
      SubSlice(ch, pos + 4, pos + 4 + extLen, 5, 5 + nameLen);
      assert NamedAt(ch, sni[5..5 + nameLen], pos + 9);
    } else {
      WalkFindsRealNames(utf8, ch, pos + 4 + extLen, extEnd);
    }
  }

  lemma BodySlice(data: seq<byte>, n: nat)
    requires 9 + n <= |data|
    ensures data[5..][4..4 + n] == data[9..9 + n]
  {
    var l, r := data[5..][4..4 + n], data[9..9 + n];
    assert |l| == |r| && forall i :: 0 <= i < |l| ==> l[i] == r[i];
  }

  lemma NamedInSlice(data: seq<byte>, a: nat, b: nat, name: seq<byte>, p: nat)
    requires a <= b <= |data| && NamedAt(data[a..b], name, p)
    ensures NamedAt(data, name, a + p)
  {
    SubSlice(data, a, b, p, p + |name|);
  }

  lemma ExtensionsFindRealNames(utf8: Utf8, ch: seq<byte>)
    requires Extensions(utf8, ch).Some?
    ensures var name := Extensions(utf8, ch).value;
      utf8(name) && exists p: nat :: NamedAt(ch, name, p)
  {
    var c := SkipVectors(ch).value;
    WalkFindsRealNames(utf8, ch, c + 2, c + 2 + U16At(ch, c));
  }

  /** Whatever the bytes, a name that is returned is valid and stands in the input after a
      host_name type byte and its own length. */
  lemma NamesAreReal(utf8: Utf8, data: seq<byte>)
    requires Sni(utf8, data).Some?
    ensures utf8(Sni(utf8, data).value) && exists p: nat :: NamedAt(data, Sni(utf8, data).value, p)
  {
    var hs := data[5..];
    var ch, name := hs[4..4 + U24At(hs, 1)], Sni(utf8, data).value;
    ExtensionsFindRealNames(utf8, ch);
    BodySlice(data, U24At(hs, 1));
    var p: nat :| NamedAt(ch, name, p);
    NamedInSlice(data, 9, 9 + U24At(hs, 1), name, p);
  }

  // ----- well-formed messages -----

  datatype Extension = Extension(kind: u16, body: seq<byte>)

  datatype Hello = Hello(
    version: seq<byte>, random: seq<byte>, sessionId: seq<byte>,
    cipherSuites: seq<byte>, compression: seq<byte>, extensions: seq<Extension>)

  /** A number in two or three bytes, most significant first. */
  function Two(n: nat): (s: seq<byte>)
    requires n < 0x1_0000
    ensures |s| == 2 && U16At(s, 0) == n
  {
    [n / 256, n % 256]
  }

  function Three(n: nat): (s: seq<byte>)
    requires n < 0x100_0000
    ensures |s| == 3 && U24At(s, 0) == n
  {
    [n / 0x1_0000, n / 256 % 256, n % 256]
  }

  function EncodeExtension(e: Extension): seq<byte>
    requires |e.body| < 0x1_0000
  {
    Two(e.kind) + (Two(|e.body|) + e.body)
  }

  predicate Sized(es: seq<Extension>) { forall i :: 0 <= i < |es| ==> |es[i].body| < 0x1_0000 }

  function EncodeExtensions(es: seq<Extension>): seq<byte>
    requires Sized(es)
  {
    if es == [] then [] else EncodeExtension(es[0]) + EncodeExtensions(es[1..])
  }

  /** The size limits of the vectors, and a message that fits one record. */
  predicate WellFormed(recordVersion: seq<byte>, h: Hello) {
    FitsVectors(h) && |recordVersion| == 2 && 4 + |EncodeHello(h)| < 0x1_0000
  }

  predicate FitsVectors(h: Hello) {
    && |h.version| == 2 && |h.random| == 32
    && |h.sessionId| < 256 && |h.cipherSuites| < 0x1_0000 && |h.compression| < 256
    && Sized(h.extensions) && |EncodeExtensions(h.extensions)| < 0x1_0000
  }

  function EncodeHello(h: Hello): seq<byte>
    requires FitsVectors(h)
  {
    var exts := EncodeExtensions(h.extensions);
    (h.version + h.random)
    + Vectors(h.sessionId, Two(|h.cipherSuites|), h.cipherSuites, h.compression, Two(|exts|), exts)
  }

  function Vectors(sid: seq<byte>, suitesLen: seq<byte>, suites: seq<byte>, comp: seq<byte>, extLen: seq<byte>, exts: seq<byte>)
    : seq<byte>
    requires |sid| < 256 && |comp| < 256
  {
    [|sid|] + (sid + (suitesLen + (suites + ([|comp|] + (comp + (extLen + exts))))))
  }

  function EncodeRecord(recordVersion: seq<byte>, h: Hello): seq<byte>
    requires WellFormed(recordVersion, h)
  {
    Record(recordVersion, EncodeHello(h))
  }

  function Record(recordVersion: seq<byte>, hello: seq<byte>): seq<byte>
    requires 4 + |hello| < 0x1_0000
  {
    [0x16] + (recordVersion + (Two(4 + |hello|) + ([0x01] + (Three(|hello|) + hello))))
  }

  /** A server_name list whose first entry is a host name; `more` are its other entries. */
  function ServerName(name: seq<byte>, more: seq<byte>): Extension
    requires 3 + |name| + |more| < 0x1_0000
  {
    Extension(0, Two(3 + |name| + |more|) + ([0] + (Two(|name|) + (name + more))))
  }

  // ----- reading what was written -----

  ghost predicate At(b: seq<byte>, pos: nat, s: seq<byte>) { pos + |s| <= |b| && b[pos..pos + |s|] == s }

  lemma AtConcat(b: seq<byte>, pos: nat, s: seq<byte>, t: seq<byte>)
    requires At(b, pos, s + t)
    ensures At(b, pos, s) && At(b, pos + |s|, t)
  {
    assert b[pos..pos + |s|] == b[pos..pos + |s + t|][..|s|];
    assert b[pos + |s|..pos + |s| + |t|] == b[pos..pos + |s + t|][|s|..];
  }

  lemma AtU16(b: seq<byte>, pos: nat, s: seq<byte>)
    requires At(b, pos, s) && |s| == 2
    ensures U16At(b, pos) == U16At(s, 0)
  {
    assert s[0] == b[pos..pos + 2][0] && s[1] == b[pos..pos + 2][1];
  }

  lemma AtU24(b: seq<byte>, pos: nat, s: seq<byte>)
    requires At(b, pos, s) && |s| == 3
    ensures U24At(b, pos) == U24At(s, 0)
  {
    assert s[0] == b[pos..pos + 3][0] && s[1] == b[pos..pos + 3][1] && s[2] == b[pos..pos + 3][2];
  }

  /** A vector with a one-byte length, then `rest`. */
  lemma PeelShort(b: seq<byte>, pos: nat, v: seq<byte>, rest: seq<byte>)
    requires |v| < 256 && At(b, pos, [|v|] + (v + rest))
    ensures pos < |b| && b[pos] == |v| && At(b, pos + 1 + |v|, rest)
  {
    AtConcat(b, pos, [|v|], v + rest);
    AtConcat(b, pos + 1, v, rest);
    assert b[pos] == b[pos..pos + 1][0];
  }

  /** A vector with a two-byte length, then `rest`. */
  lemma PeelLong(b: seq<byte>, pos: nat, len: seq<byte>, v: seq<byte>, rest: seq<byte>)
    requires |len| == 2 && U16At(len, 0) == |v| && At(b, pos, len + (v + rest))
    ensures pos + 2 <= |b| && U16At(b, pos) == |v| && At(b, pos + 2, v) && At(b, pos + 2 + |v|, rest)
  {
    AtConcat(b, pos, len, v + rest);
    AtU16(b, pos, len);
    AtConcat(b, pos + 2, v, rest);
  }

  lemma PeelExtension(b: seq<byte>, pos: nat, e: Extension, rest: seq<byte>)
    requires |e.body| < 0x1_0000 && At(b, pos, EncodeExtension(e) + rest)
    ensures pos + 4 <= |b| && U16At(b, pos) == e.kind && U16At(b, pos + 2) == |e.body|
    ensures At(b, pos + 4, e.body) && At(b, pos + 4 + |e.body|, rest)
    ensures |EncodeExtension(e)| == 4 + |e.body|
  {
    var kind, len := Two(e.kind), Two(|e.body|);
    assert EncodeExtension(e) + rest == kind + (len + (e.body + rest));
    AtConcat(b, pos, kind, len + (e.body + rest));
    AtU16(b, pos, kind);
    PeelLong(b, pos + 2, len, e.body, rest);
  }

  lemma WalkOne(utf8: Utf8, ch: seq<byte>, pos: nat, extEnd: nat, e: Extension)
    requires pos + 4 <= |ch| && U16At(ch, pos) == e.kind && U16At(ch, pos + 2) == |e.body|
    requires At(ch, pos + 4, e.body) && pos + 4 + |e.body| <= extEnd
    ensures Walk(utf8, ch, pos, extEnd)
         == if e.kind == 0 then NameIn(utf8, e.body) else Walk(utf8, ch, pos + 4 + |e.body|, extEnd)
  {
  }

  /** What the rest of the extensions looks like once the first is passed. */
  lemma WalkRest(utf8: Utf8, ch: seq<byte>, pos: nat, extEnd: nat, es: seq<Extension>, n: nat)
    requires Sized(es) && At(ch, pos, EncodeExtensions(es)) && extEnd == pos + |EncodeExtensions(es)|
    requires 0 < n <= |es| && (forall i :: 0 <= i < n ==> es[i].kind != 0) && (n < |es| ==> es[n].kind == 0)
    ensures var rest, at := es[1..], pos + 4 + |es[0].body|;
      && Sized(rest) && At(ch, at, EncodeExtensions(rest)) && extEnd == at + |EncodeExtensions(rest)|
      && (forall i :: 0 <= i < n - 1 ==> rest[i].kind != 0)
      && (n - 1 < |rest| ==> rest[n - 1].kind == 0 && rest[n - 1] == es[n])
      && Walk(utf8, ch, pos, extEnd) == Walk(utf8, ch, at, extEnd)
  {
    PeelExtension(ch, pos, es[0], EncodeExtensions(es[1..]));
    WalkOne(utf8, ch, pos, extEnd, es[0]);
  }

  lemma {:induction false} WalkReachesFirst(utf8: Utf8, ch: seq<byte>, pos: nat, extEnd: nat, es: seq<Extension>, n: nat)
    requires Sized(es) && At(ch, pos, EncodeExtensions(es)) && extEnd == pos + |EncodeExtensions(es)| && n <= |es|
    requires forall i :: 0 <= i < n ==> es[i].kind != 0
    requires n < |es| ==> es[n].kind == 0
    ensures Walk(utf8, ch, pos, extEnd) == if n < |es| then NameIn(utf8, es[n].body) else None
    decreases |es|
  {
    if es == [] {
    } else {
      PeelExtension(ch, pos, es[0], EncodeExtensions(es[1..]));
      WalkOne(utf8, ch, pos, extEnd, es[0]);
      if n == 0 {
      } else {
        WalkRest(utf8, ch, pos, extEnd, es, n);
        WalkReachesFirst(utf8, ch, pos + 4 + |es[0].body|, extEnd, es[1..], n - 1);
      }
    }
  }

  lemma ReachExtensions(ch: seq<byte>, sid: seq<byte>, suitesLen: seq<byte>, suites: seq<byte>, comp: seq<byte>,
                        extLen: seq<byte>, exts: seq<byte>)
    requires |sid| < 256 && |comp| < 256
    requires |suitesLen| == 2 && U16At(suitesLen, 0) == |suites| && |extLen| == 2 && U16At(extLen, 0) == |exts|
    requires At(ch, 34, Vectors(sid, suitesLen, suites, comp, extLen, exts))
    ensures var c := SkipVectors(ch);
      c.Some? && U16At(ch, c.value) == |exts| && At(ch, c.value + 2, exts)
  {
    var s3 := extLen + exts;
    var s2 := [|comp|] + (comp + s3);
    PeelShort(ch, 34, sid, suitesLen + (suites + s2));
    var a := 35 + |sid|;
    PeelLong(ch, a, suitesLen, suites, s2);
    var b := a + 2 + |suites|;
    PeelShort(ch, b, comp, s3);
    var c := b + 1 + |comp|;
    AtConcat(ch, c, extLen, exts);
    AtU16(ch, c, extLen);
  }

  lemma HelloReaches(h: Hello)
    requires FitsVectors(h)
    ensures var ch, exts := EncodeHello(h), EncodeExtensions(h.extensions);
      var c := SkipVectors(ch);
      c.Some? && U16At(ch, c.value) == |exts| && At(ch, c.value + 2, exts)
  {
    var ch, exts := EncodeHello(h), EncodeExtensions(h.extensions);
    var suitesLen, extLen := Two(|h.cipherSuites|), Two(|exts|);
    var tail := Vectors(h.sessionId, suitesLen, h.cipherSuites, h.compression, extLen, exts);
    assert At(ch, 0, (h.version + h.random) + tail);
    AtConcat(ch, 0, h.version + h.random, tail);
    ReachExtensions(ch, h.sessionId, suitesLen, h.cipherSuites, h.compression, extLen, exts);
  }

  lemma RecordHoldsHello(utf8: Utf8, recordVersion: seq<byte>, hello: seq<byte>, trailing: seq<byte>)
    requires |recordVersion| == 2 && 4 + |hello| < 0x1_0000
    ensures Sni(utf8, Record(recordVersion, hello) + trailing) == Extensions(utf8, hello)
  {
    var data := Record(recordVersion, hello) + trailing;
    var recordLen, helloLen := Two(4 + |hello|), Three(|hello|);
    var s2 := [0x01] + (helloLen + hello);
    assert At(data, 0, Record(recordVersion, hello));
    AtConcat(data, 0, [0x16], recordVersion + (recordLen + s2));
    AtConcat(data, 1, recordVersion, recordLen + s2);
    AtConcat(data, 3, recordLen, s2);
    AtU16(data, 3, recordLen);
    AtConcat(data, 5, [0x01], helloLen + hello);
    AtConcat(data, 6, helloLen, hello);
    AtU24(data, 6, helloLen);
    SniOfParts(utf8, data, hello);
  }

  lemma SniOfParts(utf8: Utf8, data: seq<byte>, hello: seq<byte>)
    requires At(data, 0, [0x16]) && At(data, 5, [0x01]) && At(data, 9, hello)
    requires U16At(data, 3) == 4 + |hello| && U24At(data, 6) == |hello|
    ensures Sni(utf8, data) == Extensions(utf8, hello)
  {
    var hs := data[5..];
    assert data[0] == data[0..1][0] && hs[0] == data[5..6][0];
    BodySlice(data, |hello|);
  }

  lemma NameInServerName(utf8: Utf8, name: seq<byte>, more: seq<byte>)
    requires 3 + |name| + |more| < 0x1_0000
    ensures NameIn(utf8, ServerName(name, more).body) == if utf8(name) then Some(name) else None
  {
    var sni := ServerName(name, more).body;
    var listLen, nameLen := Two(3 + |name| + |more|), Two(|name|);
    var s1 := nameLen + (name + more);
    assert At(sni, 0, listLen + ([0] + s1));
    AtConcat(sni, 0, listLen, [0] + s1);
    AtConcat(sni, 2, [0], s1);
    PeelLong(sni, 3, nameLen, name, more);
    assert sni[2] == sni[2..3][0];
  }

  lemma HelloName(utf8: Utf8, h: Hello, n: nat)
    requires FitsVectors(h) && n <= |h.extensions|
    requires forall i :: 0 <= i < n ==> h.extensions[i].kind != 0
    requires n < |h.extensions| ==> h.extensions[n].kind == 0
    ensures Extensions(utf8, EncodeHello(h)) == if n < |h.extensions| then NameIn(utf8, h.extensions[n].body) else None
  {
    HelloReaches(h);
    BlockName(utf8, EncodeHello(h), h.extensions, n);
  }

  lemma BlockName(utf8: Utf8, ch: seq<byte>, es: seq<Extension>, n: nat)
    requires Sized(es) && n <= |es| && SkipVectors(ch).Some?
    requires var c := SkipVectors(ch).value;
      U16At(ch, c) == |EncodeExtensions(es)| && At(ch, c + 2, EncodeExtensions(es))
    requires forall i :: 0 <= i < n ==> es[i].kind != 0
    requires n < |es| ==> es[n].kind == 0
    ensures Extensions(utf8, ch) == if n < |es| then NameIn(utf8, es[n].body) else None
  {
    var pos := SkipVectors(ch).value + 2;
    WalkReachesFirst(utf8, ch, pos, pos + |EncodeExtensions(es)|, es, n);
  }

  /** On every well-formed ClientHello in one record, whatever follows it: the name of the
      first server_name extension is found among any others, and without one there is none. */
  lemma SniOfWellFormed(utf8: Utf8, recordVersion: seq<byte>, h: Hello, trailing: seq<byte>, n: nat)
    requires WellFormed(recordVersion, h) && n <= |h.extensions|
    requires forall i :: 0 <= i < n ==> h.extensions[i].kind != 0
    requires n < |h.extensions| ==> h.extensions[n].kind == 0
    ensures Sni(utf8, EncodeRecord(recordVersion, h) + trailing)
         == if n < |h.extensions| then NameIn(utf8, h.extensions[n].body) else None
  {
    RecordHoldsHello(utf8, recordVersion, EncodeHello(h), trailing);
    HelloName(utf8, h, n);
  }

  /** In particular a host name that comes first in its list is found whatever else the
      message carries. */
  lemma HostNameIsFound(utf8: Utf8, recordVersion: seq<byte>, h: Hello, trailing: seq<byte>, n: nat,
                        name: seq<byte>, more: seq<byte>)
    requires WellFormed(recordVersion, h) && n < |h.extensions|
    requires 3 + |name| + |more| < 0x1_0000 && h.extensions[n] == ServerName(name, more)
    requires forall i :: 0 <= i < n ==> h.extensions[i].kind != 0
    ensures var r := Sni(utf8, EncodeRecord(recordVersion, h) + trailing);
      (utf8(name) ==> r == Some(name)) && (!utf8(name) ==> r == None)
  {
    SniOfWellFormed(utf8, recordVersion, h, trailing, n);
    NameInServerName(utf8, name, more);
  }

  lemma RecordSays(recordVersion: seq<byte>, hello: seq<byte>)
    requires |recordVersion| == 2 && 4 + |hello| < 0x1_0000
    ensures var data := Record(recordVersion, hello); |data| == 9 + |hello| && U16At(data, 3) == 4 + |hello|
  {
    var data := Record(recordVersion, hello);
    var recordLen, helloLen := Two(4 + |hello|), Three(|hello|);
    var s2 := [0x01] + (helloLen + hello);
    assert At(data, 0, Record(recordVersion, hello));
    AtConcat(data, 0, [0x16], recordVersion + (recordLen + s2));
    AtConcat(data, 1, recordVersion, recordLen + s2);
    AtConcat(data, 3, recordLen, s2);
    AtU16(data, 3, recordLen);
  }

  /** No name is taken from a record that has not arrived completely. */
  lemma PartOfARecordHasNoName(utf8: Utf8, recordVersion: seq<byte>, h: Hello, k: nat)
    requires WellFormed(recordVersion, h) && k < |EncodeRecord(recordVersion, h)|
    ensures Sni(utf8, EncodeRecord(recordVersion, h)[..k]) == None
  {
    RecordSays(recordVersion, EncodeHello(h));
    var data := EncodeRecord(recordVersion, h);
    assert k >= 5 ==> data[..k][3] == data[3] && data[..k][4] == data[4];
  }
}
