/** Resumable downloads: `download_file_with_hash` and `download_stream` in
    crates/nilbox-core/src/vm_install.rs. A SHA-256 state is the bytes fed to it; the digest
    is any function of them. */
module Download {
  import opened Bytes
  import opened Framing

  /** The partial file and the destination file. */
  datatype Files = Files(part: Option<seq<byte>>, dest: Option<seq<byte>>)

  /** A response: its status, the chunks of its body, and whether the body came through
      without an error. */
  datatype Response = Response(status: nat, chunks: seq<seq<byte>>, complete: bool)

  predicate Success(r: Response) { 200 <= r.status < 300 }

  const BLOCK := 65536

  class Disk {
    var part: Option<seq<byte>>
    var dest: Option<seq<byte>>

    ghost function View(): Files
      reads this
    {
      Files(part, dest)
    }

    /** Feeds the partial file to a hasher, block by block. */
    method HashPart() returns (hashed: seq<byte>)
      requires part.Some?
      ensures hashed == part.value
    {
      hashed := [];
      var at := 0;
      while at < |part.value|
        invariant 0 <= at <= |part.value| && hashed == part.value[..at]
      {
        var n := if |part.value| - at < BLOCK then |part.value| - at else BLOCK;
        assert part.value[..at] + part.value[at..at + n] == part.value[..at + n];
        hashed := hashed + part.value[at..at + n];
        at := at + n;
      }
      assert part.value[..at] == part.value;
    }

    /** Writes the body to the partial file, hashing as it goes, and renames it when done. */
    method Stream(resp: Response, hasher: seq<byte>, offset: nat) returns (hashed: Option<seq<byte>>)
      modifies this
      ensures (View(), hashed) == Streamed(old(View()), resp, hasher, offset)
    {
      var file := if offset > 0 && part.Some? then part.value else [];
      part := Some(file);
      ghost var start := file;
      var h, i := hasher, 0;
      assert Concat(resp.chunks[..0]) == [] && file + [] == file && hasher + [] == hasher;
      while i < |resp.chunks|
        invariant 0 <= i <= |resp.chunks| && dest == old(dest)
        invariant part == Some(start + Concat(resp.chunks[..i])) && h == hasher + Concat(resp.chunks[..i])
      {
        var chunk := resp.chunks[i];
        assert resp.chunks[..i + 1][..i] == resp.chunks[..i];
        ConcatAssoc(start, Concat(resp.chunks[..i]), chunk);
        ConcatAssoc(hasher, Concat(resp.chunks[..i]), chunk);
        part := Some(part.value + chunk);
        h := h + chunk;
        i := i + 1;
      }
      assert resp.chunks[..i] == resp.chunks;
      if !resp.complete {
        return None;
      }
      dest := part;
      part := None;
      hashed := Some(h);
    }

    /** One call: resume if a recent partial file exists, else start over. */
    method Fetch(recent: bool, first: Response, retry: Response) returns (hashed: Option<seq<byte>>)
      modifies this
      ensures (View(), hashed) == Fetched(old(View()), recent, first, retry)
      ensures hashed.Some? <==> Taken(first, retry).Some? && Taken(first, retry).value.complete
      ensures hashed.Some? ==> part == None && dest == hashed
    {
      HashMatchesFile(View(), recent, first, retry);
      SucceedsIffComplete(View(), recent, first, retry);
      var offset, hasher := 0, [];
      if part.Some? {
        if recent && |part.value| > 0 {
          hasher := HashPart();
          offset := |part.value|;
        } else {
          part := None;
        }
      }
      if first.status == 200 {
        if offset > 0 {
          hasher := [];
          offset := 0;
        }
      } else if first.status == 206 {
      } else if first.status == 416 {
        part := None;
        if !Success(retry) {
          return None;
        }
        hashed := Stream(retry, [], 0);
        return;
      } else if !Success(first) {
        return None;
      }
      hashed := Stream(first, hasher, offset);
    }
  }

  ghost function Streamed(f: Files, resp: Response, hasher: seq<byte>, offset: nat): (Files, Option<seq<byte>>) {
    var start := if offset > 0 && f.part.Some? then f.part.value else [];
    var written := start + Concat(resp.chunks);
    if resp.complete then (Files(None, Some(written)), Some(hasher + Concat(resp.chunks)))
    else (f.(part := Some(written)), None)
  }

  /** What the request can resume from. */
  function Usable(f: Files, recent: bool): seq<byte> { if f.part.Some? && recent then f.part.value else [] }

  ghost function Fetched(f: Files, recent: bool, first: Response, retry: Response): (Files, Option<seq<byte>>) {
    var have := Usable(f, recent);
    var g := f.(part := if have == [] then None else Some(have));
    if first.status == 416 then
      if Success(retry) then Streamed(g.(part := None), retry, [], 0) else (g.(part := None), None)
    else if !Success(first) then (g, None)
    else if first.status == 200 then Streamed(g, first, [], 0)
    else Streamed(g, first, have, |have|)
  }

  /** For every partial file, every script of responses and every cutting of the bodies, a
      digest that is returned is that of exactly the bytes of the destination file. */
  lemma HashMatchesFile(f: Files, recent: bool, first: Response, retry: Response)
    ensures var (g, hashed) := Fetched(f, recent, first, retry);
      if hashed.Some? then g == Files(None, hashed) else g.dest == f.dest
  {
  }

  /** The response whose body is streamed to the file, if any. */
  function Taken(first: Response, retry: Response): Option<Response> {
    if first.status == 416 then if Success(retry) then Some(retry) else None
    else if Success(first) then Some(first) else None
  }

  /** A call succeeds exactly when a response is accepted and its body arrives whole: any
      success, or after 416 a success of the second request. Otherwise what arrived stays in
      the partial file, behind what was there if the request was a resumed one, and a refused
      request leaves what could be resumed as it was. */
  lemma SucceedsIffComplete(f: Files, recent: bool, first: Response, retry: Response)
    ensures var (g, hashed) := Fetched(f, recent, first, retry);
      var r, have := Taken(first, retry), if recent && f.part.Some? then f.part.value else [];
      && (hashed.Some? <==> r.Some? && r.value.complete)
      && (r.Some? && !r.value.complete ==>
            g.part == Some((if first.status == 200 || first.status == 416 then [] else have) + Concat(r.value.chunks)))
      && (r.None? && first.status != 416 && have != [] ==> g.part == Some(have))
      && (r.None? && first.status == 416 ==> g.part == None)
  {
    assert [] + Concat(first.chunks) == Concat(first.chunks) && [] + Concat(retry.chunks) == Concat(retry.chunks);
  }

  // ----- a server that keeps serving the same content -----

  /** The body is as much of `expected` as came through. */
  ghost predicate Body(r: Response, expected: seq<byte>) {
    Concat(r.chunks) <= expected && (r.complete ==> Concat(r.chunks) == expected)
  }

  /** 206 sends what follows the offset; every other success sends the whole content. */
  ghost predicate Honest(content: seq<byte>, offset: nat, r: Response) {
    && (r.status == 206 ==> offset <= |content| && Body(r, content[offset..]))
    && (Success(r) && r.status != 206 ==> Body(r, content))
  }

  ghost predicate PrefixOf(f: Files, content: seq<byte>) { f.part.Some? ==> f.part.value <= content }

  /** The one way an honest server spoils a file: a success other than 200 and 206 in reply
      to a resumed request has its full body appended to the part already there. */
  predicate Spoils(f: Files, recent: bool, first: Response) {
    Usable(f, recent) != [] && Success(first) && first.status != 200 && first.status != 206
  }

  lemma PrefixConcat(a: seq<byte>, b: seq<byte>, content: seq<byte>)
    requires a <= content && b <= content[|a|..]
    ensures a + b <= content && (b == content[|a|..] ==> a + b == content)
  {
    assert content == a + content[|a|..];
  }

  /** With an honest server, whatever is interrupted where: the partial file stays a prefix
      of the content, and a finished download is the content, exactly when the reply was not
      of the spoiling kind. */
  lemma HonestServerDelivers(content: seq<byte>, f: Files, recent: bool, first: Response, retry: Response)
    requires PrefixOf(f, content) && Honest(content, |Usable(f, recent)|, first)
    requires Success(retry) ==> Body(retry, content)
    ensures var (g, hashed) := Fetched(f, recent, first, retry);
      && (!Spoils(f, recent, first) ==> PrefixOf(g, content) && (hashed.Some? ==> g.dest == Some(content)))
      && (Spoils(f, recent, first) && hashed.Some? ==> g.dest == Some(Usable(f, recent) + content) && g.dest != Some(content))
  {
    var have := Usable(f, recent);
    assert have <= content;
    assert [] + Concat(first.chunks) == Concat(first.chunks) && [] + Concat(retry.chunks) == Concat(retry.chunks);
    if first.status == 206 {
      PrefixConcat(have, Concat(first.chunks), content);
    }
    assert |have + content| == |have| + |content|;
  }

  /** Whatever interrupted attempts came before, one whole body of an honest server finishes
      the download. */
  lemma WholeBodyFinishes(content: seq<byte>, f: Files, recent: bool, first: Response, retry: Response)
    requires PrefixOf(f, content) && Honest(content, |Usable(f, recent)|, first) && !Spoils(f, recent, first)
    requires Success(retry) ==> Body(retry, content)
    requires Taken(first, retry).Some? && Taken(first, retry).value.complete
    ensures Fetched(f, recent, first, retry) == (Files(None, Some(content)), Some(content))
  {
    SucceedsIffComplete(f, recent, first, retry);
    HashMatchesFile(f, recent, first, retry);
    HonestServerDelivers(content, f, recent, first, retry);
  }

  datatype Attempt = Attempt(recent: bool, first: Response, retry: Response)

  /** Any number of attempts against one content: states between them, none spoiling. */
  ghost predicate Attempts(content: seq<byte>, states: seq<Files>, tries: seq<Attempt>) {
    && |states| == |tries| + 1 && states[0] == Files(None, None)
    && forall i: nat :: i < |tries| ==> AttemptAt(content, states, tries, i)
  }

  ghost predicate AttemptAt(content: seq<byte>, states: seq<Files>, tries: seq<Attempt>, i: nat)
    requires |states| == |tries| + 1 && i < |tries|
  {
    var t := tries[i];
    && Honest(content, |Usable(states[i], t.recent)|, t.first) && (Success(t.retry) ==> Body(t.retry, content))
    && !Spoils(states[i], t.recent, t.first)
    && states[i + 1] == Fetched(states[i], t.recent, t.first, t.retry).0
  }

  /** After any number of interrupted and resumed attempts the destination, once it exists,
      is exactly the content. */
  lemma {:induction false} ResumedDownloadIsWhole(content: seq<byte>, states: seq<Files>, tries: seq<Attempt>, i: nat)
    requires Attempts(content, states, tries) && i < |states|
    ensures PrefixOf(states[i], content) && (states[i].dest.Some? ==> states[i].dest.value == content)
  {
    if i == 0 {
    } else {
      ResumedDownloadIsWhole(content, states, tries, i - 1);
      assert AttemptAt(content, states, tries, i - 1);
      var t := tries[i - 1];
      HonestServerDelivers(content, states[i - 1], t.recent, t.first, t.retry);
      HashMatchesFile(states[i - 1], t.recent, t.first, t.retry);
    }
  }
}
