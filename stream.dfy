/** Folding the streamed reply of the inference API into one assistant text,
    with the partial renderings shown while it arrives. */
module Stream {
  import opened PyStrings

  datatype Option<T> = None | Some(value: T)

  /** One streamed chunk, reduced to its `delta.content`: `None` when the
      chunk has no delta or the delta has no content. */
  type Chunk = Option<string>

  /** The cursor drawn after the partial text while the reply streams. */
  const Cursor: char := '▋'

  /** A chunk contributes its content when it is present and non-empty. */
  predicate Contributes(c: Chunk) {
    c.Some? && c.value != ""
  }

  /** The contributing fragments of `cs`, in stream order. */
  function Fragments(cs: seq<Chunk>): (r: seq<string>)
    ensures forall f :: f in r ==> f != ""
    ensures |r| <= |cs|
  {
    if cs == [] then []
    else
      var last := cs[|cs| - 1];
      Fragments(cs[..|cs| - 1]) + (if Contributes(last) then [last.value] else [])
  }

  /** The fragments written one after the other. */
  function Concat(fs: seq<string>): string {
    if fs == [] then "" else Concat(fs[..|fs| - 1]) + fs[|fs| - 1]
  }

  /** The text a whole stream adds up to. */
  function Collected(cs: seq<Chunk>): string {
    Concat(Fragments(cs))
  }

  lemma {:induction false} FragmentsAppend(a: seq<Chunk>, b: seq<Chunk>)
    ensures Fragments(a + b) == Fragments(a) + Fragments(b)
    decreases |b|
  {
    if b == [] {
      assert a + b == a;
    } else {
      assert (a + b)[..|a + b| - 1] == a + b[..|b| - 1];
      FragmentsAppend(a, b[..|b| - 1]);
    }
  }

  lemma {:induction false} ConcatAppend(f: seq<string>, g: seq<string>)
    ensures Concat(f + g) == Concat(f) + Concat(g)
    decreases |g|
  {
    if g == [] {
      assert f + g == f;
    } else {
      var h := f + g;
      assert h[..|h| - 1] == f + g[..|g| - 1];
      assert h[|h| - 1] == g[|g| - 1];
      ConcatAppend(f, g[..|g| - 1]);
      assert Concat(g) == Concat(g[..|g| - 1]) + g[|g| - 1];
    }
  }

  /** Consuming a stream in two pieces collects the same text as consuming it
      at once. */
  lemma CollectedAppend(a: seq<Chunk>, b: seq<Chunk>)
    ensures Collected(a + b) == Collected(a) + Collected(b)
  {
    FragmentsAppend(a, b);
    ConcatAppend(Fragments(a), Fragments(b));
  }

  /** A chunk without content, or with empty content, changes nothing. */
  lemma CollectedSkips(a: seq<Chunk>, c: Chunk, b: seq<Chunk>)
    requires !Contributes(c)
    ensures Collected(a + [c] + b) == Collected(a + b)
  {
    CollectedAppend(a + [c], b);
    CollectedAppend(a, [c]);
    CollectedAppend(a, b);
    assert Fragments([c]) == [] by { assert [c][..0] == []; }
  }

  /** A contributing chunk is appended verbatim. */
  lemma CollectedAdds(a: seq<Chunk>, c: Chunk)
    requires Contributes(c)
    ensures Collected(a + [c]) == Collected(a) + c.value
  {
    CollectedAppend(a, [c]);
    assert Fragments([c]) == [c.value] by { assert [c][..0] == []; }
    assert Concat([c.value]) == c.value by { assert [c.value][..0] == []; }
  }

  /** The fragments of a prefix of the stream are a prefix of its fragments. */
  lemma FragmentsPrefix(cs: seq<Chunk>, n: nat)
    requires n <= |cs|
    ensures |Fragments(cs[..n])| <= |Fragments(cs)|
    ensures Fragments(cs[..n]) == Fragments(cs)[..|Fragments(cs[..n])|]
  {
    assert cs == cs[..n] + cs[n..];
    FragmentsAppend(cs[..n], cs[n..]);
  }

  /** One more chunk of the stream: its content, if it contributes, is the
      next fragment and extends the collected text. */
  lemma Step(cs: seq<Chunk>, n: nat)
    requires n < |cs|
    ensures Fragments(cs[..n + 1]) ==
            Fragments(cs[..n]) + (if Contributes(cs[n]) then [cs[n].value] else [])
    ensures Collected(cs[..n + 1]) ==
            Collected(cs[..n]) + (if Contributes(cs[n]) then cs[n].value else "")
  {
    assert cs[..n + 1][..n] == cs[..n];
    assert cs[..n + 1] == cs[..n] + [cs[n]];
    if Contributes(cs[n]) {
      CollectedAdds(cs[..n], cs[n]);
    } else {
      assert Fragments(cs[..n + 1]) == Fragments(cs[..n]);
    }
  }

  /** A partial rendering without its cursor is a prefix of the final text. */
  lemma PartialIsPrefix(fs: seq<string>, i: nat)
    requires i < |fs|
    ensures var d := Concat(fs[..i + 1]) + [Cursor];
            IsPrefix(d[..|d| - 1], Concat(fs))
  {
    ConcatPrefix(fs, i + 1);
    var d := Concat(fs[..i + 1]) + [Cursor];
    assert d[..|d| - 1] == Concat(fs[..i + 1]);
  }

  /** The text of the first `i` fragments is a prefix of the whole text. */
  lemma ConcatPrefix(fs: seq<string>, i: nat)
    requires i <= |fs|
    ensures IsPrefix(Concat(fs[..i]), Concat(fs))
  {
    assert fs == fs[..i] + fs[i..];
    ConcatAppend(fs[..i], fs[i..]);
  }

  /** Each additional fragment makes the partial text strictly longer. */
  lemma {:induction false} ConcatGrows(fs: seq<string>, i: nat)
    requires i < |fs|
    requires forall f :: f in fs ==> f != ""
    ensures |Concat(fs[..i])| < |Concat(fs[..i + 1])|
  {
    assert fs[..i + 1][..i] == fs[..i];
    assert fs[..i + 1][i] == fs[i] && fs[i] in fs;
  }

  /** The `for chunk in stream` loop: append every contributing fragment to
      `aiText` and render `aiText` followed by the cursor; after the stream
      ends, render `aiText` without the cursor. `displays` lists the
      renderings in order. */
  method Aggregate(chunks: seq<Chunk>) returns (aiText: string, displays: seq<string>)
    ensures aiText == Collected(chunks)
    ensures |displays| == |Fragments(chunks)| + 1
    ensures forall i :: 0 <= i < |displays| - 1 ==>
              displays[i] == Concat(Fragments(chunks)[..i + 1]) + [Cursor]
    ensures forall i :: 0 <= i < |displays| - 1 ==>
              |displays[i]| > 0 && displays[i][|displays[i]| - 1] == Cursor &&
              IsPrefix(displays[i][..|displays[i]| - 1], aiText)
    ensures displays[|displays| - 1] == aiText
  {
    ghost var all := Fragments(chunks);
    aiText := "";
    displays := [];
    var n := 0;
    while n < |chunks|
      invariant 0 <= n <= |chunks|
      invariant aiText == Collected(chunks[..n])
      invariant |displays| <= |all| && Fragments(chunks[..n]) == all[..|displays|]
      invariant forall i :: 0 <= i < |displays| ==> displays[i] == Concat(all[..i + 1]) + [Cursor]
    {
      var chunk := chunks[n];
      Step(chunks, n);
      FragmentsPrefix(chunks, n + 1);
      if chunk.Some? && chunk.value != "" {
        aiText := aiText + chunk.value;
        displays := displays + [aiText + [Cursor]];
      }
      n := n + 1;
    }
    assert chunks[..n] == chunks;
    assert all[..|displays|] == all;
    forall i | 0 <= i < |displays|
      ensures IsPrefix(displays[i][..|displays[i]| - 1], aiText)
    {
      PartialIsPrefix(all, i);
    }
    displays := displays + [aiText];
  }
}
