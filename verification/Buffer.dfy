/** The buffer object: packing appends, unpacking shifts, and the list loops over it. */
module BufferModule {
  import opened Bytes
  import opened Wire

  /** What is decoded in all, once `before` has been decoded and `later` is what follows. */
  function Resume<T>(before: seq<T>, later: Option<Taken<seq<T>>>): Option<Taken<seq<T>>> {
    match later case None => None case Some(t) => Some(Taken(before + t.value, t.rest))
  }

  const UNASSIGNED := Params(None, None, None)

  class Buffer {
    var stream: seq<byte>

    constructor ()
      ensures stream == []
    {
      stream := [];
    }

    constructor Copy(other: Buffer)
      ensures stream == other.stream
    {
      stream := other.stream;
    }

    method Pack(b: seq<byte>)
      modifies this
      ensures stream == old(stream) + b
    {
      stream := stream + b;
    }

    method Unpack(n: nat) returns (r: Option<seq<byte>>)
      modifies this
      ensures match Take(old(stream), n)
              case None => r == None && stream == old(stream)
              case Some(t) => r == Some(t.value) && stream == t.rest
    {
      if stream == [] || |stream| < n {
        r := None;
      } else {
        r := Some(stream[..n]);
        stream := stream[n..];
      }
    }

    method UnpackWord() returns (r: Option<nat>)
      modifies this
      ensures match TakeWord(old(stream))
              case None => r == None && stream == old(stream)
              case Some(t) => r == Some(t.value) && stream == t.rest
    {
      var w := Unpack(4);
      r := match w case None => None case Some(b) => Some(FromWord(b));
    }

    method PackString(s: Text)
      modifies this
      ensures stream == old(stream) + StringBytes(s)
    {
      Pack(Word(|s| + 1));
      stream := stream + (CharBytes(s) + [0]);
      assert StringBytes(s) == Word(|s| + 1) + (CharBytes(s) + [0]);
    }

    method UnpackString() returns (r: Option<Text>)
      modifies this
      ensures match TakeString(old(stream))
              case None => r == None
              case Some(t) => r == Some(t.value) && stream == t.rest
    {
      var length := UnpackWord();
      if length == None { return None; }
      var bytes := Unpack(length.value);
      if bytes == None { return None; }
      var s := CString(bytes.value);
      if s == None { return None; }
      CStringIsText(bytes.value);
      r := Some(s.value);
    }

    method PackStrings(ss: seq<Text>)
      modifies this
      ensures stream == old(stream) + StringsBytes(ss)
    {
      ghost var whole := stream + StringsBytes(ss);
      assert ss[0..] == ss;
      for k := 0 to |ss|
        invariant Packed(stream, StringsBytes(ss[k..]), whole)
      {
        assert ss[k..][1..] == ss[k + 1..];
        PackedStep(stream, StringBytes(ss[k]), StringsBytes(ss[k + 1..]), whole);
        PackString(ss[k]);
      }
    }

    /** `empaquetar_instruccion`. */
    method PackInstruction(i: Instr)
      modifies this
      ensures stream == old(stream) + EncodeByNull(i)
    {
      Pack(Word(i.code));
      var p := i.params;
      var strings := if p.p1 == None then []
                     else if p.p2 == None then [p.p1.value]
                     else if p.p3 == None then [p.p1.value, p.p2.value]
                     else [p.p1.value, p.p2.value, p.p3.value];
      assert strings == Leading(p, NonNull(p));
      PackStrings(strings);
    }

    /** One turn of `empaquetar_lista_instrucciones`. */
    method PackByCode(i: Instr)
      requires Complete(i)
      modifies this
      ensures stream == old(stream) + EncodeByCode(i)
    {
      Pack(Word(i.code));
      PackStrings(Leading(i.params, Arity(i.code)));
    }

    /** `empaquetar_lista_instrucciones`. */
    method PackInstructions(list: seq<Instr>)
      requires AllComplete(list)
      modifies this
      ensures stream == old(stream) + EncodeList(list)
    {
      ghost var whole := stream + EncodeList(list);
      assert list[0..] == list;
      for k := 0 to |list|
        invariant Packed(stream, EncodeList(list[k..]), whole)
      {
        assert list[k..][1..] == list[k + 1..];
        PackedStep(stream, EncodeByCode(list[k]), EncodeList(list[k + 1..]), whole);
        PackByCode(list[k]);
      }
    }

    /** The `if` chain both decoders use for the parameters. */
    method UnpackParams(n: nat, before: Params) returns (r: Option<Params>)
      requires n <= 3
      modifies this
      ensures match TakeParams(old(stream), n, before)
              case None => r == None
              case Some(t) => r == Some(t.value) && stream == t.rest
    {
      var p := before;
      if n >= 1 {
        var s := UnpackString();
        if s == None { return None; }
        p := Params(Some(s.value), p.p2, p.p3);
      }
      if n >= 2 {
        var s := UnpackString();
        if s == None { return None; }
        p := Params(p.p1, Some(s.value), p.p3);
      }
      if n >= 3 {
        var s := UnpackString();
        if s == None { return None; }
        p := Params(p.p1, p.p2, Some(s.value));
      }
      r := Some(p);
    }

    /** One turn of `desempaquetar_lista_instrucciones`. */
    method UnpackInstruction(before: Params) returns (r: Option<Instr>)
      modifies this
      ensures match TakeInstr(old(stream), before)
              case None => r == None
              case Some(t) => r == Some(t.value) && stream == t.rest
    {
      var code := UnpackWord();
      if code == None { return None; }
      var p := UnpackParams(Arity(code.value), before);
      if p == None { return None; }
      r := Some(Instr(code.value, p.value));
    }

    /** The turn of the loop when `left` instructions are still to come. */
    method NextInstruction(ghost out: seq<Instr>, ghost left: nat, params: Params,
                           ghost whole: Option<Taken<seq<Instr>>>)
      returns (x: Option<Instr>)
      requires left > 0 && ListGoes(out, stream, left, params, whole)
      modifies this
      ensures match x
              case None => whole == None
              case Some(i) => ListGoes(out + [i], stream, left - 1, i.params, whole)
    {
      ListStep(out, stream, left, params, whole);
      x := UnpackInstruction(params);
    }

    /** `desempaquetar_lista_instrucciones`. */
    method UnpackInstructions(n: nat) returns (r: Option<seq<Instr>>)
      modifies this
      ensures match TakeList(old(stream), n, UNASSIGNED)
              case None => r == None
              case Some(t) => r == Some(t.value) && stream == t.rest
    {
      var out: seq<Instr> := [];
      var params := UNASSIGNED;
      ghost var whole := TakeList(stream, n, UNASSIGNED);
      var left := n;
      ResumeNothing(whole);
      while left > 0
        invariant ListGoes(out, stream, left, params, whole)
      {
        var x := NextInstruction(out, left, params, whole);
        if x == None { return None; }
        out, params, left := out + [x.value], x.value.params, left - 1;
      }
      ListEnds(out, stream, params, whole);
      r := Some(out);
    }

    /** One turn of `obtener_lista_instrucciones`. */
    method UnpackBySwitch(before: Params) returns (r: Option<Instr>)
      modifies this
      ensures match TakeBySwitch(old(stream), before)
              case None => r == None
              case Some(t) => r == Some(t.value) && stream == t.rest
    {
      var code := UnpackWord();
      if code == None { return None; }
      var p := UnpackParams(ArityBySwitch(code.value), before);
      if p == None { return None; }
      r := Some(Instr(code.value, p.value));
    }

    /** `obtener_lista_instrucciones`. */
    method UnpackProgram() returns (r: Option<seq<Instr>>)
      modifies this
      ensures match TakeProgram(old(stream), UNASSIGNED)
              case None => r == None
              case Some(t) => r == Some(t.value) && stream == t.rest
    {
      var out: seq<Instr> := [];
      var params := UNASSIGNED;
      var exit := false;
      ghost var whole := TakeProgram(stream, UNASSIGNED);
      ResumeNothing(whole);
      while !exit
        invariant !exit ==> ProgramGoes(out, stream, params, whole)
        invariant exit ==> whole == Some(Taken(out, stream))
        decreases !exit, |stream|
      {
        ProgramStep(out, stream, params, whole);
        var x := UnpackBySwitch(params);
        if x == None { return None; }
        params := x.value.params;
        exit := x.value.code == EXIT;
        out := out + [x.value];
      }
      r := Some(out);
    }

    /** `empaquetar_segmento`. */
    method PackRow(row: SegRow)
      modifies this
      ensures stream == old(stream) + RowBytes(row)
    {
      Pack(IntBytes(row.id));
      Pack(IntBytes(row.idSegPcb));
      Pack(IntBytes(row.pid));
      Pack(IntBytes(row.base));
      Pack(IntBytes(row.limite));
    }

    /** `empaquetar_lista_segmentos`. */
    method PackTable(rows: seq<SegRow>)
      modifies this
      ensures stream == old(stream) + TableBytes(rows)
    {
      ghost var whole := stream + TableBytes(rows);
      assert rows[0..] == rows;
      for k := 0 to |rows|
        invariant Packed(stream, TableBytes(rows[k..]), whole)
      {
        assert rows[k..][1..] == rows[k + 1..];
        PackedStep(stream, RowBytes(rows[k]), TableBytes(rows[k + 1..]), whole);
        PackRow(rows[k]);
      }
    }

    method UnpackInt() returns (r: Option<int32>)
      modifies this
      ensures match TakeInt(old(stream))
              case None => r == None
              case Some(t) => r == Some(t.value) && stream == t.rest
    {
      var w := UnpackWord();
      r := match w case None => None case Some(n) => Some(IntOf(n));
    }

    /** `desempaquetar_segmento`. */
    method UnpackRow() returns (r: Option<SegRow>)
      modifies this
      ensures match TakeRow(old(stream))
              case None => r == None
              case Some(t) => r == Some(t.value) && stream == t.rest
    {
      var id := UnpackInt();
      if id == None { return None; }
      var idSegPcb := UnpackInt();
      if idSegPcb == None { return None; }
      var pid := UnpackInt();
      if pid == None { return None; }
      var base := UnpackInt();
      if base == None { return None; }
      var limite := UnpackInt();
      if limite == None { return None; }
      r := Some(SegRow(id.value, idSegPcb.value, pid.value, base.value, limite.value));
    }

    method NextRow(ghost out: seq<SegRow>, ghost left: nat, ghost whole: Option<Taken<seq<SegRow>>>)
      returns (row: Option<SegRow>)
      requires left > 0 && TableGoes(out, stream, left, whole)
      modifies this
      ensures match row
              case None => whole == None
              case Some(x) => TableGoes(out + [x], stream, left - 1, whole)
    {
      TableStep(out, stream, left, whole);
      row := UnpackRow();
    }

    /** `desempaquetar_lista_segmentos`. */
    method UnpackTable(n: nat) returns (r: Option<seq<SegRow>>)
      modifies this
      ensures match TakeTable(old(stream), n)
              case None => r == None
              case Some(t) => r == Some(t.value) && stream == t.rest
    {
      var out: seq<SegRow> := [];
      ghost var whole := TakeTable(stream, n);
      var left := n;
      ResumeNothing(whole);
      while left > 0
        invariant TableGoes(out, stream, left, whole)
      {
        var row := NextRow(out, left, whole);
        if row == None { return None; }
        out, left := out + [row.value], left - 1;
      }
      TableEnds(out, stream, whole);
      r := Some(out);
    }
  }

  // ----- the loops' progress -----

  /** What is packed and what is still to be packed make up the whole. */
  ghost predicate Packed(stream: seq<byte>, tail: seq<byte>, whole: seq<byte>) {
    stream + tail == whole
  }

  lemma PackedStep(stream: seq<byte>, b: seq<byte>, tail: seq<byte>, whole: seq<byte>)
    requires Packed(stream, b + tail, whole)
    ensures Packed(stream + b, tail, whole)
  {
    assert (stream + b) + tail == stream + (b + tail);
  }

  ghost predicate ListGoes(out: seq<Instr>, b: seq<byte>, n: nat, params: Params, whole: Option<Taken<seq<Instr>>>) {
    whole == Resume(out, TakeList(b, n, params))
  }

  lemma ListStep(out: seq<Instr>, b: seq<byte>, n: nat, params: Params, whole: Option<Taken<seq<Instr>>>)
    requires n > 0 && ListGoes(out, b, n, params, whole)
    ensures match TakeInstr(b, params)
            case None => whole == None
            case Some(t) => ListGoes(out + [t.value], t.rest, n - 1, t.value.params, whole)
  {
    var x := TakeInstr(b, params);
    if x.Some? {
      ResumeTwice(out, [x.value.value], TakeList(x.value.rest, n - 1, x.value.value.params));
    }
  }

  lemma ListEnds(out: seq<Instr>, b: seq<byte>, params: Params, whole: Option<Taken<seq<Instr>>>)
    requires ListGoes(out, b, 0, params, whole)
    ensures whole == Some(Taken(out, b))
  {
    assert out + [] == out;
  }

  ghost predicate ProgramGoes(out: seq<Instr>, b: seq<byte>, params: Params, whole: Option<Taken<seq<Instr>>>) {
    whole == Resume(out, TakeProgram(b, params))
  }

  lemma ProgramStep(out: seq<Instr>, b: seq<byte>, params: Params, whole: Option<Taken<seq<Instr>>>)
    requires ProgramGoes(out, b, params, whole)
    ensures match TakeBySwitch(b, params)
            case None => whole == None
            case Some(t) =>
              if t.value.code == EXIT then whole == Some(Taken(out + [t.value], t.rest))
              else |t.rest| < |b| && ProgramGoes(out + [t.value], t.rest, t.value.params, whole)
  {
    var x := TakeBySwitch(b, params);
    if x.Some? {
      ResumeTwice(out, [x.value.value], TakeProgram(x.value.rest, x.value.value.params));
    }
  }

  ghost predicate TableGoes(out: seq<SegRow>, b: seq<byte>, n: nat, whole: Option<Taken<seq<SegRow>>>) {
    whole == Resume(out, TakeTable(b, n))
  }

  lemma TableStep(out: seq<SegRow>, b: seq<byte>, n: nat, whole: Option<Taken<seq<SegRow>>>)
    requires n > 0 && TableGoes(out, b, n, whole)
    ensures match TakeRow(b)
            case None => whole == None
            case Some(t) => TableGoes(out + [t.value], t.rest, n - 1, whole)
  {
    var x := TakeRow(b);
    if x.Some? { ResumeTwice(out, [x.value.value], TakeTable(x.value.rest, n - 1)); }
  }

  lemma TableEnds(out: seq<SegRow>, b: seq<byte>, whole: Option<Taken<seq<SegRow>>>)
    requires TableGoes(out, b, 0, whole)
    ensures whole == Some(Taken(out, b))
  {
    assert out + [] == out;
  }

  lemma ResumeNothing<T>(later: Option<Taken<seq<T>>>)
    ensures Resume([], later) == later
  {
    if later.Some? { assert [] + later.value.value == later.value.value; }
  }

  lemma ResumeTwice<T>(xs: seq<T>, ys: seq<T>, later: Option<Taken<seq<T>>>)
    ensures Resume(xs, Resume(ys, later)) == Resume(xs + ys, later)
  {
    if later.Some? { assert xs + (ys + later.value.value) == (xs + ys) + later.value.value; }
  }

  /** What one side packs, list and all, the other side unpacks: the two buffers end up as they would have been
      without the list. */
  method SendInstructions(from: Buffer, to: Buffer, list: seq<Instr>) returns (r: Option<seq<Instr>>)
    requires from != to && AllComplete(list) && from.stream == []
    modifies from, to
    ensures from.stream == EncodeList(list)
    ensures r.Some? && SameMeanings(r.value, list) && to.stream == []
  {
    from.PackInstructions(list);
    to.stream := from.stream;
    ListRoundTrip(list, [], UNASSIGNED);
    assert from.stream == EncodeList(list) + [] == EncodeList(list);
    r := to.UnpackInstructions(|list|);
  }
}
