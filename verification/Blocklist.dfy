/** Building blocklist.bin and answering queries from it:
    crates/nilbox-blocklist/src/builder.rs, sources/oisd.rs, sources/urlhaus.rs and lib.rs. */
module Blocklist {
  import opened Bytes
  import opened Bloom
  import opened BlocklistFormat

  // ----- the source lists -----

  /** What `char::is_whitespace` accepts. */
  predicate White(c: char) {
    var n := c as int;
    || 0x09 <= n <= 0x0D || n == 0x20 || n == 0x85 || n == 0xA0 || n == 0x1680 || 0x2000 <= n <= 0x200A
    || n == 0x2028 || n == 0x2029 || n == 0x202F || n == 0x205F || n == 0x3000
  }

  function TrimStart(s: string): string {
    if s != [] && White(s[0]) then TrimStart(s[1..]) else s
  }

  function TrimEnd(s: string): string {
    if s != [] && White(s[|s| - 1]) then TrimEnd(s[..|s| - 1]) else s
  }

  function Trim(s: string): string { TrimEnd(TrimStart(s)) }

  /** The position of the first character that `stop` accepts, or the length. */
  function Find(s: string, stop: char -> bool): (n: nat)
    ensures n <= |s| && (n < |s| ==> stop(s[n])) && forall i :: 0 <= i < n ==> !stop(s[i])
  {
    if s == [] || stop(s[0]) then 0 else 1 + Find(s[1..], stop)
  }

  /** The lines of a text. A carriage return before the line feed stays: every use trims. */
  function Lines(text: string): seq<string>
    decreases |text|
  {
    if text == [] then []
    else
      var n := Find(text, c => c == '\n');
      [text[..n]] + if n < |text| then Lines(text[n + 1..]) else []
  }

  function Named(domain: string): Option<string> {
    var n := Normalize(domain);
    if n == [] || '.' !in n then None else Some(n)
  }

  function OisdName(raw: string): Option<string> {
    var line := Trim(raw);
    if line == [] || line[0] == '#' then None
    else Named(if "*." <= line then line[2..] else line)
  }

  /** The part of the line after its first white space. */
  function UrlhausName(raw: string): Option<string> {
    var line := Trim(raw);
    if line == [] || line[0] == '#' then None
    else
      var n := Find(line, White);
      if n == |line| then None else Named(Trim(line[n + 1..]))
  }

  predicate AllWhite(s: string) { forall i :: 0 <= i < |s| ==> White(s[i]) }

  predicate NoWhite(s: string) { forall i :: 0 <= i < |s| ==> !White(s[i]) }

  /** Text that trimming leaves alone. */
  predicate Tight(s: string) { s != [] && !White(s[0]) && !White(s[|s| - 1]) }

  lemma {:induction false} TrimStartDrops(pad: string, s: string)
    requires AllWhite(pad) && (s == [] || !White(s[0]))
    ensures TrimStart(pad + s) == s
  {
    if pad == [] {
      assert pad + s == s;
    } else {
      assert (pad + s)[1..] == pad[1..] + s;
      TrimStartDrops(pad[1..], s);
    }
  }

  lemma {:induction false} TrimEndDrops(s: string, pad: string)
    requires AllWhite(pad) && (s == [] || !White(s[|s| - 1]))
    ensures TrimEnd(s + pad) == s
  {
    if pad == [] {
      assert s + pad == s;
    } else {
      assert (s + pad)[..|s + pad| - 1] == s + pad[..|pad| - 1];
      TrimEndDrops(s, pad[..|pad| - 1]);
    }
  }

  lemma TrimDrops(before: string, s: string, after: string)
    requires AllWhite(before) && Tight(s) && AllWhite(after)
    ensures Trim(before + (s + after)) == s
  {
    TrimStartDrops(before, s + after);
    TrimEndDrops(s, after);
  }

  lemma FindStops(a: string, b: string, stop: char -> bool)
    requires (forall i :: 0 <= i < |a| ==> !stop(a[i])) && (b == [] || stop(b[0]))
    ensures Find(a + b, stop) == |a|
  {
    var n := Find(a + b, stop);
    assert forall i :: 0 <= i < |a| ==> (a + b)[i] == a[i];
    assert b != [] ==> (a + b)[|a|] == b[0];
  }

  /** Lines end at line feeds, and the last one at the end of the text. */
  lemma LinesSplit(line: string, rest: string)
    requires '\n' !in line
    ensures Lines(line + ("\n" + rest)) == [line] + Lines(rest)
    ensures line != [] ==> Lines(line) == [line]
  {
    var text := line + ("\n" + rest);
    FindStops(line, "\n" + rest, c => c == '\n');
    assert text[..|line|] == line && text[|line| + 1..] == rest;
    FindStops(line, [], c => c == '\n');
    assert line + [] == line && line[..|line|] == line;
  }

  /** White space of plain text, and the characters of host names, addresses and comments. */
  lemma PlainWhite(c: char)
    ensures c in {' ', '\t', '\r', '\n'} ==> White(c)
    ensures 'a' <= c <= 'z' || 'A' <= c <= 'Z' || '0' <= c <= '9' || c in {'.', '-', '_', ':', '*', '#'} ==> !White(c)
  {
  }

  /** A line of the first list: a name, maybe behind `*.`, with white space round it; a
      comment gives nothing. */
  lemma OisdLine(before: string, name: string, after: string)
    requires AllWhite(before) && Tight(name) && AllWhite(after)
    ensures name[0] == '#' ==> OisdName(before + (name + after)) == None
    ensures name[0] != '#' && name[0] != '*' ==> OisdName(before + (name + after)) == Named(name)
    ensures OisdName(before + ("*." + name + after)) == Named(name)
  {
    TrimDrops(before, name, after);
    TrimDrops(before, "*." + name, after);
    assert ("*." + name)[2..] == name;
  }

  lemma SecondPart(address: string, gap: string, name: string)
    requires address != [] && NoWhite(address) && gap != [] && AllWhite(gap) && Tight(name)
    ensures var line := address + (gap + name);
      && Tight(line) && line[0] == address[0] && Find(line, White) == |address| && Trim(line[|address| + 1..]) == name
  {
    var line := address + (gap + name);
    FindStops(address, gap + name, White);
    assert line[|line| - 1] == name[|name| - 1];
    assert line[|address| + 1..] == gap[1..] + (name + []);
    TrimDrops(gap[1..], name, []);
  }

  /** A line of the second list: an address, white space, and a name. */
  lemma UrlhausLine(before: string, address: string, gap: string, name: string, after: string)
    requires AllWhite(before) && AllWhite(gap) && AllWhite(after) && gap != []
    requires address != [] && NoWhite(address) && Tight(name)
    ensures UrlhausName(before + (address + (gap + name) + after)) == if address[0] == '#' then None else Named(name)
  {
    SecondPart(address, gap, name);
    TrimDrops(before, address + (gap + name), after);
  }

  /** An address alone names nothing. */
  lemma LoneAddress(before: string, address: string, after: string)
    requires AllWhite(before) && AllWhite(after) && address != [] && NoWhite(address)
    ensures UrlhausName(before + (address + after)) == None
  {
    TrimDrops(before, address, after);
    FindStops(address, [], White);
    assert address + [] == address;
  }

  /** What makes a name fit for the list: it has two labels at least. */
  lemma NamedDecides(stem: string, dots: string)
    requires NoDotAtEnd(stem) && AllDots(dots)
    ensures Named(stem + dots) == if '.' in stem then Some(Lower(stem)) else None
  {
    NormalizeIsLower(stem, dots);
    if '.' in stem {
      var i :| 0 <= i < |stem| && stem[i] == '.';
      assert Lower(stem)[i] == '.';
    }
    if '.' in Lower(stem) {
      var i :| 0 <= i < |stem| && Lower(stem)[i] == '.';
      assert stem[i] == '.';
    }
  }

  datatype Source = Oisd | Urlhaus

  function SourceOf(id: string): Option<Source> {
    if id == "oisd" then Some(Oisd) else if id == "urlhaus" then Some(Urlhaus) else None
  }

  function NameOn(source: Source, line: string): Option<string> {
    match source
    case Oisd => OisdName(line)
    case Urlhaus => UrlhausName(line)
  }

  function Parse(source: Source, lines: seq<string>): (names: seq<string>)
    ensures forall n :: n in names <==> exists l :: l in lines && NameOn(source, l) == Some(n)
  {
    if lines == [] then []
    else
      var n := NameOn(source, lines[0]);
      (if n.Some? then [n.value] else []) + Parse(source, lines[1..])
  }

  /** `n` stands on some line of one of the lists named. */
  ghost predicate Listed(ids: seq<string>, texts: map<Source, string>, n: string) {
    exists id, l :: id in ids && ListedOn(id, texts, l, n)
  }

  ghost predicate ListedOn(id: string, texts: map<Source, string>, l: string, n: string) {
    var source := SourceOf(id);
    source.Some? && source.value in texts && l in Lines(texts[source.value]) && NameOn(source.value, l) == Some(n)
  }

  /** Reads the lists named; fails on a name it does not know or a text that is not there. */
  method LoadSources(ids: seq<string>, texts: map<Source, string>) returns (r: Result<seq<string>>)
    ensures r.Ok? <==> forall id :: id in ids ==> SourceOf(id).Some? && SourceOf(id).value in texts
    ensures r.Ok? ==> forall n :: n in r.value <==> Listed(ids, texts, n)
  {
    var names := [];
    for i := 0 to |ids|
      invariant forall id :: id in ids[..i] ==> SourceOf(id).Some? && SourceOf(id).value in texts
      invariant forall n :: n in names <==> Listed(ids[..i], texts, n)
    {
      var source := SourceOf(ids[i]);
      if source.None? || source.value !in texts {
        assert ids[i] in ids;
        return Err;
      }
      assert ids[..i + 1] == ids[..i] + [ids[i]];
      ParsedAreListed(ids[..i], ids[i], texts, names);
      names := names + Parse(source.value, Lines(texts[source.value]));
    }
    assert ids[..|ids|] == ids;
    r := Ok(names);
  }

  lemma ParsedAreListed(ids: seq<string>, id: string, texts: map<Source, string>, names: seq<string>)
    requires SourceOf(id).Some? && SourceOf(id).value in texts
    requires forall n :: n in names <==> Listed(ids, texts, n)
    ensures var more := names + Parse(SourceOf(id).value, Lines(texts[SourceOf(id).value]));
      forall n :: n in more <==> Listed(ids + [id], texts, n)
  {
    var parsed := Parse(SourceOf(id).value, Lines(texts[SourceOf(id).value]));
    forall n ensures n in names + parsed <==> Listed(ids + [id], texts, n) {
      ListedSnoc(ids, id, texts, n);
      ParsedIsListed(id, texts, parsed, n);
    }
  }

  lemma ParsedIsListed(id: string, texts: map<Source, string>, parsed: seq<string>, n: string)
    requires SourceOf(id).Some? && SourceOf(id).value in texts
    requires parsed == Parse(SourceOf(id).value, Lines(texts[SourceOf(id).value]))
    ensures n in parsed <==> exists l :: ListedOn(id, texts, l, n)
  {
    var source, lines := SourceOf(id).value, Lines(texts[SourceOf(id).value]);
    if n in parsed {
      var l :| l in lines && NameOn(source, l) == Some(n);
      assert ListedOn(id, texts, l, n);
    }
    if l :| ListedOn(id, texts, l, n) {
      assert l in lines && NameOn(source, l) == Some(n);
    }
  }

  lemma ListedSnoc(ids: seq<string>, id: string, texts: map<Source, string>, n: string)
    ensures Listed(ids + [id], texts, n) <==> Listed(ids, texts, n) || exists l :: ListedOn(id, texts, l, n)
  {
    if x, l :| x in ids + [id] && ListedOn(x, texts, l, n) {
      assert x in ids || x == id;
    }
    if l :| ListedOn(id, texts, l, n) {
      assert id in ids + [id];
    }
    if x, l :| x in ids && ListedOn(x, texts, l, n) {
      assert x in ids + [id];
    }
  }

  /** What a list contributes is in normal form and not empty. */
  lemma ListedNamesAreNormal(ids: seq<string>, texts: map<Source, string>, n: string)
    requires Listed(ids, texts, n)
    ensures n != [] && '.' in n && Normalize(n) == n
  {
    var id, l :| id in ids && ListedOn(id, texts, l, n);
    NamedIsNormal(SourceOf(id).value, l);
  }

  lemma NamedIsNormal(source: Source, line: string)
    ensures var r := NameOn(source, line);
      r.Some? ==> r.value != [] && '.' in r.value && Normalize(r.value) == r.value
  {
    var t := Trim(line);
    if t != [] {
      NormalizeIdempotent(if "*." <= t then t[2..] else t);
      var n := Find(t, White);
      if n < |t| {
        NormalizeIdempotent(Trim(t[n + 1..]));
      }
    }
  }

  // ----- the set of names -----

  /** The names the builder keeps: all of the sources, less those on the lines of the allow
      list, plus those on the lines of the deny list. */
  ghost function KeptNames(sources: seq<string>, allow: seq<string>, deny: seq<string>): set<string> {
    (set s | s in sources) - (set a | a in allow && Normalize(Trim(a)) != [] :: Normalize(Trim(a)))
    + (set d | d in deny && Named(Trim(d)).Some? :: Normalize(Trim(d)))
  }

  predicate NormalNames(names: seq<string>) {
    forall i :: 0 <= i < |names| ==> names[i] != [] && Normalize(names[i]) == names[i]
  }

  lemma KeptNamesAreNormal(sources: seq<string>, allow: seq<string>, deny: seq<string>, name: string)
    requires NormalNames(sources) && name in KeptNames(sources, allow, deny)
    ensures name != [] && Normalize(name) == name
  {
    if name !in sources {
      var d :| d in deny && Named(Trim(d)).Some? && Normalize(Trim(d)) == name;
      NormalizeIdempotent(Trim(d));
    }
  }

  method CollectNames(sources: seq<string>, allow: seq<string>, deny: seq<string>) returns (domains: set<string>)
    ensures domains == KeptNames(sources, allow, deny)
  {
    domains := {};
    for i := 0 to |sources|
      invariant domains == set s | s in sources[..i]
    {
      domains := domains + {sources[i]};
      assert sources[..i + 1] == sources[..i] + [sources[i]];
    }
    assert sources[..|sources|] == sources;
    ghost var all := domains;
    for i := 0 to |allow|
      invariant domains == all - (set a | a in allow[..i] && Normalize(Trim(a)) != [] :: Normalize(Trim(a)))
    {
      var d := Normalize(Trim(allow[i]));
      assert allow[..i + 1] == allow[..i] + [allow[i]];
      if d != [] {
        domains := domains - {d};
      }
    }
    assert allow[..|allow|] == allow;
    ghost var left := domains;
    for i := 0 to |deny|
      invariant domains == left + (set d | d in deny[..i] && Named(Trim(d)).Some? :: Normalize(Trim(d)))
    {
      var d := Normalize(Trim(deny[i]));
      assert deny[..i + 1] == deny[..i] + [deny[i]];
      if d != [] && '.' in d {
        domains := domains + {d};
      }
    }
    assert deny[..|deny|] == deny;
  }

  // ----- building -----

  /** Inserts the names in whatever order the set yields them. */
  method FillFilter(h: Hash, domains: set<string>, byteLen: nat, numHashes: nat) returns (bits: seq<byte>)
    requires byteLen >= 1 && numHashes >= 1
    ensures |bits| == byteLen && FilterOf(h, bits, numHashes, domains)
  {
    var filter := new BloomFilter.WithCapacity(byteLen, numHashes);
    forall p: nat | p < 8 * byteLen ensures !Bit(filter.bits[..], p) {
      ZeroHasNoBits(p % 8);
    }
    var todo := domains;
    while todo != {}
      invariant filter.Valid() && filter.bits.Length == byteLen && filter.numHashes == numHashes
      invariant todo <= domains && fresh(filter.bits)
      invariant FilterOf(h, filter.bits[..], numHashes, domains - todo)
      decreases todo
    {
      var domain :| domain in todo;
      filter.Insert(h, domain);
      assert domains - (todo - {domain}) == (domains - todo) + {domain};
      todo := todo - {domain};
    }
    assert domains - {} == domains;
    bits := filter.bits[..];
  }

  lemma {:induction false} ZeroHasNoBits(k: nat)
    ensures !TestBit(0, k)
  {
    if k == 0 {
    } else {
      ZeroHasNoBits(k - 1);
    }
  }

  /** `sign` is what is appended as signature: 64 zero bytes when there is no key. */
  method BuildBlocklist(h: Hash, sha: Sha, sources: seq<string>, allow: seq<string>, deny: seq<string>,
                        byteLen: nat, numHashes: u32, fpRateMillionths: u32, categoryFlags: byte, timestamp: u64,
                        sign: seq<byte> -> seq<byte>)
    returns (file: seq<byte>, parts: File)
    requires byteLen >= 1 && numHashes >= 1
    requires forall b :: |sha(b)| == 32
    ensures Shaped(parts.header) && file == Serialize(parts)
    ensures parts.signature == sign(SignableBytes(parts.header, parts.bits))
    ensures FilterOf(h, parts.bits, numHashes, KeptNames(sources, allow, deny)) && |parts.bits| == byteLen
    ensures parts.header.numHashFunctions == numHashes && parts.header.categoryFlags == categoryFlags
    ensures parts.header.domainCount == |KeptNames(sources, allow, deny)| % 0x1_0000_0000
    ensures parts.header.fpRateMillionths == fpRateMillionths && parts.header.buildTimestamp == timestamp
    ensures byteLen < 0x1_0000_0000 && |parts.signature| == SIG_SIZE <==> Consistent(sha, parts)
  {
    var domains := CollectNames(sources, allow, deny);
    var bits := FillFilter(h, domains, byteLen, numHashes);
    var header := Assemble(sha, |domains|, bits, numHashes, fpRateMillionths, categoryFlags, timestamp);
    parts := File(header, bits, sign(SignableBytes(header, bits)));
    file := Serialize(parts);
  }

  /** Counts are cut to 32 bits. */
  function Assemble(sha: Sha, count: nat, bits: seq<byte>, numHashes: u32, fpRateMillionths: u32, categoryFlags: byte,
                    timestamp: u64): (h: Header)
    requires |sha(bits)| == 32
    ensures Shaped(h) && h.numHashFunctions == numHashes && h.categoryFlags == categoryFlags
    ensures h.domainCount == count % 0x1_0000_0000 && h.fpRateMillionths == fpRateMillionths && h.buildTimestamp == timestamp
    ensures forall sig :: Consistent(sha, File(h, bits, sig)) <==> |bits| < 0x1_0000_0000 && |sig| == SIG_SIZE
  {
    Header(MAGIC, FORMAT_VERSION, categoryFlags, 0, count % 0x1_0000_0000, fpRateMillionths, numHashes,
           |bits| % 0x1_0000_0000, timestamp, sha(bits))
  }

  // ----- loading and asking -----

  datatype Loaded = Loaded(header: Header, bits: seq<byte>, numBits: nat, numHashes: nat, verified: bool)

  function Load(sha: Sha, verify: (seq<byte>, seq<byte>) -> bool, data: seq<byte>, verifySig: bool): Result<Loaded> {
    match Deserialize(sha, data)
    case Err => Err
    case Ok(f) =>
      AcceptedFileKept(sha, data);
      if verifySig && !verify(SignableBytes(f.header, f.bits), f.signature) then Err
      else Ok(Loaded(f.header, f.bits, f.header.bitArrayLenBytes * 8, f.header.numHashFunctions, verifySig))
  }

  /** A list is loaded exactly when the file reads and, if that is asked for, its last 64 bytes
      are a signature of the rest. */
  lemma LoadAccepts(sha: Sha, verify: (seq<byte>, seq<byte>) -> bool, data: seq<byte>, verifySig: bool)
    ensures var r, f := Load(sha, verify, data, verifySig), Deserialize(sha, data);
      && (r.Ok? <==> f.Ok? && (verifySig ==> verify(data[..|data| - SIG_SIZE], data[|data| - SIG_SIZE..])))
      && (r.Ok? ==> r.value.bits == f.value.bits && r.value.numBits == 8 * |f.value.bits| && r.value.header == f.value.header
                    && r.value.numHashes == f.value.header.numHashFunctions && r.value.verified == verifySig)
  {
    if Deserialize(sha, data).Ok? {
      AcceptedFileKept(sha, data);
    }
  }

  /** End to end: every name left in the set, and everything under it, is reported by the
      list loaded from the file built from it. */
  lemma LoadedListReportsAll(h: Hash, sha: Sha, verify: (seq<byte>, seq<byte>) -> bool, verifySig: bool,
                             sources: seq<string>, allow: seq<string>, deny: seq<string>, parts: File,
                             name: string, query: string, prefix: string, dots: string)
    requires Shaped(parts.header) && Consistent(sha, parts) && NormalNames(sources)
    requires FilterOf(h, parts.bits, parts.header.numHashFunctions, KeptNames(sources, allow, deny))
    requires verifySig ==> verify(SignableBytes(parts.header, parts.bits), parts.signature)
    requires name in KeptNames(sources, allow, deny) && Under(query, name, prefix, dots)
    ensures var r := Load(sha, verify, Serialize(parts), verifySig);
      && r.Ok? && r.value.numBits == 8 * |r.value.bits| > 0
      && Blocked(h, r.value.bits, r.value.numHashes, query)
  {
    FileRoundTrip(sha, parts);
    KeptNamesAreNormal(sources, allow, deny, name);
    NoFalseNegatives(h, parts.bits, parts.header.numHashFunctions, KeptNames(sources, allow, deny), name, query, prefix, dots);
  }

  /** A listed name stays unless a line of the allow list names it; a denied name stays. */
  lemma WhatIsKept(names: seq<string>, allow: seq<string>, deny: seq<string>, n: string)
    ensures n in KeptNames(names, allow, deny) <==>
      || (n in names && forall a :: a in allow && Normalize(Trim(a)) != [] ==> Normalize(Trim(a)) != n)
      || exists d :: d in deny && Named(Trim(d)) == Some(n)
  {
    if n in KeptNames(names, allow, deny) && n !in names {
      var d :| d in deny && Named(Trim(d)).Some? && Normalize(Trim(d)) == n;
      assert Named(Trim(d)) == Some(n);
    }
  }

  /** From the texts of the lists to the answer: reads them, builds the file, loads it and
      asks. A name listed and not allowed, or denied, is reported together with everything
      under it, in any letter case and with trailing dots; and nothing is reported unless the
      bits of the name or of a parent of it are all bits of such names. */
  method BuildLoadAndAsk(h: Hash, sha: Sha, verify: (seq<byte>, seq<byte>) -> bool, verifySig: bool,
                         ids: seq<string>, texts: map<Source, string>, allow: string, deny: string,
                         byteLen: nat, numHashes: u32, fpRateMillionths: u32, categoryFlags: byte, timestamp: u64,
                         sign: seq<byte> -> seq<byte>, query: string)
    returns (reported: Result<bool>)
    requires 1 <= byteLen < 0x1_0000_0000 && numHashes >= 1
    requires forall b :: |sha(b)| == 32
    requires forall b :: |sign(b)| == SIG_SIZE && (verifySig ==> verify(b, sign(b)))
    ensures reported.Ok? <==> forall id :: id in ids ==> SourceOf(id).Some? && SourceOf(id).value in texts
    ensures reported.Ok? ==> forall n, prefix, dots ::
      Under(query, n, prefix, dots) && Wanted(ids, texts, Lines(allow), Lines(deny), n) ==> reported.value
    ensures reported.Ok? ==>
      (reported.value <==> LooksWanted(h, ids, texts, Lines(allow), Lines(deny), numHashes, 8 * byteLen, query))
  {
    var names := LoadSources(ids, texts);
    if names.Err? {
      return Err;
    }
    var file, parts := BuildBlocklist(h, sha, names.value, Lines(allow), Lines(deny), byteLen, numHashes,
                                      fpRateMillionths, categoryFlags, timestamp, sign);
    FileRoundTrip(sha, parts);
    var loaded := Load(sha, verify, file, verifySig);
    var filter := new BloomFilter.FromRaw(loaded.value.bits, loaded.value.numHashes);
    var answer := filter.CheckWithParents(h, query);
    forall n, prefix, dots
      | Under(query, n, prefix, dots) && Wanted(ids, texts, Lines(allow), Lines(deny), n) ensures answer {
      WantedIsKept(ids, texts, names.value, Lines(allow), Lines(deny), n);
      LoadedListReportsAll(h, sha, verify, verifySig, names.value, Lines(allow), Lines(deny), parts, n, query, prefix, dots);
    }
    ReportedIff(h, ids, texts, names.value, Lines(allow), Lines(deny), parts.bits, numHashes, query);
    reported := Ok(answer);
  }

  /** Bit `p` is a bit of some name that belongs on the list. */
  ghost predicate BitOfWanted(h: Hash, ids: seq<string>, texts: map<Source, string>, allow: seq<string>, deny: seq<string>,
                              numHashes: nat, numBits: nat, p: nat)
    requires numBits > 0
  {
    exists n, j: nat :: Wanted(ids, texts, allow, deny, n) && j < numHashes && p == Position(h, Normalize(n), j, numBits)
  }

  ghost predicate BitsOfWanted(h: Hash, ids: seq<string>, texts: map<Source, string>, allow: seq<string>, deny: seq<string>,
                               numHashes: nat, numBits: nat, d: string)
    requires numBits > 0
  {
    forall k: nat :: k < numHashes ==>
      BitOfWanted(h, ids, texts, allow, deny, numHashes, numBits, Position(h, Normalize(d), k, numBits))
  }

  /** Each bit of the name, or each bit of some parent of it, is a bit of a name that belongs
      on the list. */
  ghost predicate LooksWanted(h: Hash, ids: seq<string>, texts: map<Source, string>, allow: seq<string>, deny: seq<string>,
                              numHashes: nat, numBits: nat, query: string)
    requires numBits > 0
  {
    var n := Normalize(query);
    exists i: nat :: LabelStart(n, i) && BitsOfWanted(h, ids, texts, allow, deny, numHashes, numBits, n[i..])
  }

  lemma ReportedIff(h: Hash, ids: seq<string>, texts: map<Source, string>, names: seq<string>, allow: seq<string>,
                    deny: seq<string>, bits: seq<byte>, numHashes: nat, query: string)
    requires forall m :: m in names <==> Listed(ids, texts, m)
    requires FilterOf(h, bits, numHashes, KeptNames(names, allow, deny))
    ensures Blocked(h, bits, numHashes, query) <==> LooksWanted(h, ids, texts, allow, deny, numHashes, 8 * |bits|, query)
  {
    forall d ensures Member(h, bits, numHashes, d) <==> BitsOfWanted(h, ids, texts, allow, deny, numHashes, 8 * |bits|, d) {
      MemberIff(h, bits, numHashes, KeptNames(names, allow, deny), d);
      forall p: nat ensures Shared(h, KeptNames(names, allow, deny), numHashes, 8 * |bits|, p)
          <==> BitOfWanted(h, ids, texts, allow, deny, numHashes, 8 * |bits|, p) {
        SharedIsWanted(h, ids, texts, names, allow, deny, numHashes, 8 * |bits|, p);
      }
    }
  }

  lemma SharedIsWanted(h: Hash, ids: seq<string>, texts: map<Source, string>, names: seq<string>, allow: seq<string>,
                       deny: seq<string>, numHashes: nat, numBits: nat, p: nat)
    requires numBits > 0 && forall m :: m in names <==> Listed(ids, texts, m)
    ensures Shared(h, KeptNames(names, allow, deny), numHashes, numBits, p)
      <==> BitOfWanted(h, ids, texts, allow, deny, numHashes, numBits, p)
  {
    forall n ensures n in KeptNames(names, allow, deny) <==> Wanted(ids, texts, allow, deny, n) {
      WhatIsKept(names, allow, deny, n);
    }
  }

  /** Listed and not allowed, or denied. */
  ghost predicate Wanted(ids: seq<string>, texts: map<Source, string>, allow: seq<string>, deny: seq<string>, n: string) {
    || (Listed(ids, texts, n) && forall a :: a in allow && Normalize(Trim(a)) != [] ==> Normalize(Trim(a)) != n)
    || exists d :: d in deny && Named(Trim(d)) == Some(n)
  }

  lemma WantedIsKept(ids: seq<string>, texts: map<Source, string>, names: seq<string>,
                     allow: seq<string>, deny: seq<string>, n: string)
    requires forall m :: m in names <==> Listed(ids, texts, m)
    requires Wanted(ids, texts, allow, deny, n)
    ensures NormalNames(names) && n in KeptNames(names, allow, deny) && n != [] && Normalize(n) == n
  {
    WhatIsKept(names, allow, deny, n);
    forall i | 0 <= i < |names| ensures names[i] != [] && Normalize(names[i]) == names[i] {
      assert names[i] in names;
      ListedNamesAreNormal(ids, texts, names[i]);
    }
    KeptNamesAreNormal(names, allow, deny, n);
  }
}
