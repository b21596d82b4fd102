/** The console's parser: pseudocode tokens to packed instructions, one shared record overwritten line by line. */
module Parser {
  import opened Bytes
  import opened Wire
  import opened BufferModule

  /** The chain of `strcmp` on the first token of a line. */
  function Keyword(w: Text): (r: Option<Opcode>)
    ensures r.Some? ==> Known(r.value)
  {
    if w == "F_READ" then Some(F_READ)
    else if w == "F_WRITE" then Some(F_WRITE)
    else if w == "SET" then Some(SET)
    else if w == "MOV_IN" then Some(MOV_IN)
    else if w == "MOV_OUT" then Some(MOV_OUT)
    else if w == "F_TRUNCATE" then Some(F_TRUNCATE)
    else if w == "F_SEEK" then Some(F_SEEK)
    else if w == "CREATE_SEGMENT" then Some(CREATE_SEGMENT)
    else if w == "I/O" then Some(IO)
    else if w == "WAIT" then Some(WAIT)
    else if w == "SIGNAL" then Some(SIGNAL)
    else if w == "F_OPEN" then Some(F_OPEN)
    else if w == "F_CLOSE" then Some(F_CLOSE)
    else if w == "DELETE_SEGMENT" then Some(DELETE_SEGMENT)
    else if w == "EXIT" then Some(EXIT)
    else if w == "YIELD" then Some(YIELD)
    else None
  }

  /** The instructions' names, in the order of their opcodes. */
  const NAMES: seq<string> := ["F_READ", "F_WRITE", "SET", "MOV_IN", "MOV_OUT", "F_TRUNCATE", "F_SEEK",
      "CREATE_SEGMENT", "I/O", "WAIT", "SIGNAL", "F_OPEN", "F_CLOSE", "DELETE_SEGMENT", "EXIT", "YIELD"]

  /** Each name is the keyword of its own instruction. */
  lemma KeywordOf(w: Text, k: nat)
    requires k < 16 && w == NAMES[k]
    ensures Keyword(w) == Some(k)
  {
  }

  /** How many tokens a line reads after its keyword; a word that is no keyword reads none. */
  function Operands(ts: seq<Text>): nat
    requires ts != []
  {
    match Keyword(ts[0]) case None => 0 case Some(c) => Arity(c)
  }

  /** The record after a line. A word that is no keyword leaves it alone; every keyword resets the pointers it does
      not set, except that F_SEEK, unless `reset`, leaves the third one as it was. */
  function Assign(ts: seq<Text>, rec: Option<Instr>, reset: bool): Option<Instr>
    requires ts != [] && Operands(ts) < |ts|
  {
    match Keyword(ts[0])
    case None => rec
    case Some(c) =>
      var n := Arity(c);
      var third := if n == 3 then Some(ts[3]) else if c == F_SEEK && !reset && rec.Some? then rec.value.params.p3
          else None;
      Some(Instr(c, Params(if n >= 1 then Some(ts[1]) else None, if n >= 2 then Some(ts[2]) else None, third)))
  }

  /** The records packed, in order, up to EXIT. None when the tokens run out before EXIT, where the program never
      ends, or when a record is packed before any keyword filled it. */
  function Records(ts: seq<Text>, rec: Option<Instr>, reset: bool): Option<seq<Instr>>
    decreases |ts|
  {
    if ts == [] || |ts| <= Operands(ts) then None
    else
      match Assign(ts, rec, reset)
      case None => None
      case Some(i) =>
        if Keyword(ts[0]) == Some(EXIT) then Some([i])
        else match Records(ts[1 + Operands(ts)..], Some(i), reset)
          case None => None
          case Some(later) => Some([i] + later)
  }

  /** What the source text says, read by opcode: F_SEEK takes two operands. */
  function Program(ts: seq<Text>): Option<seq<Instr>> {
    Records(ts, None, true)
  }

  // ----- the loop -----

  /** The parser's loop over the tokens of a file. */
  method ParsePseudocode(buffer: Buffer, ts: seq<Text>) returns (ok: bool)
    modifies buffer
    ensures ok <==> Records(ts, None, false).Some?
    ensures ok ==> buffer.stream == old(buffer.stream) + EncodeListByNull(Records(ts, None, false).value)
  {
    var rest := ts;
    var rec: Option<Instr> := None;
    ghost var records := Records(ts, None, false);
    ghost var whole := buffer.stream + if records.Some? then EncodeListByNull(records.value) else [];
    var exit := false;
    while !exit
      invariant !exit ==> (records.Some? <==> Records(rest, rec, false).Some?)
      invariant exit ==> records.Some?
      invariant !exit && records.Some? ==>
                  Packed(buffer.stream, EncodeListByNull(Records(rest, rec, false).value), whole)
      invariant exit ==> Packed(buffer.stream, [], whole)
      decreases !exit, |rest|
    {
      if rest == [] || |rest| <= Operands(rest) { return false; }
      ghost var coming := Records(rest, rec, false);
      ghost var before := buffer.stream;
      rec := Assign(rest, rec, false);
      if rec == None { return false; }
      buffer.PackInstruction(rec.value);
      exit := Keyword(rest[0]) == Some(EXIT);
      rest := rest[1 + Operands(rest)..];
      if coming.Some? {
        ghost var tail := if exit then [] else Records(rest, rec, false).value;
        assert coming.value == [rec.value] + tail;
        assert ([rec.value] + tail)[1..] == tail;
        assert EncodeListByNull(coming.value) == EncodeByNull(rec.value) + EncodeListByNull(tail);
        PackedStep(before, EncodeByNull(rec.value), EncodeListByNull(tail), whole);
      }
    }
    ok := true;
  }

  // ----- what reaches the other side -----

  /** Exactly the operands the opcode asks for are non-NULL. */
  predicate Exact(i: Instr) {
    NonNull(i.params) == Arity(i.code)
  }

  ghost predicate AllExact(list: seq<Instr>) {
    forall k :: 0 <= k < |list| ==> Exact(list[k])
  }

  /** No F_SEEK line inherits a third operand: since the last F_READ or F_WRITE before it, some line of another
      opcode has come. `third` says whether the record holds a third operand at this point. */
  predicate SeekSafe(ts: seq<Text>, third: bool)
    decreases |ts|
  {
    if ts == [] || |ts| <= Operands(ts) then true
    else match Keyword(ts[0])
      case None => SeekSafe(ts[1..], third)
      case Some(c) =>
        if c == EXIT then true
        else if c == F_SEEK then !third && SeekSafe(ts[1 + Operands(ts)..], third)
        else SeekSafe(ts[1 + Operands(ts)..], Arity(c) == 3)
  }

  predicate HoldsThird(rec: Option<Instr>) {
    rec.Some? && rec.value.params.p3.Some?
  }

  /** Two records at the same point, the parser's and the one that resets everything. */
  ghost predicate SameSoFar(rec: Option<Instr>, ideal: Option<Instr>) {
    match rec
    case None => ideal == None
    case Some(i) => ideal.Some? && Complete(i) && Exact(ideal.value) && MeaningOf(i) == MeaningOf(ideal.value)
  }

  lemma AssignSame(ts: seq<Text>, rec: Option<Instr>, ideal: Option<Instr>)
    requires ts != [] && Operands(ts) < |ts| && SameSoFar(rec, ideal)
    ensures SameSoFar(Assign(ts, rec, false), Assign(ts, ideal, true))
  {
  }

  /** The records packed say, opcode by opcode, what the source text says. */
  lemma {:induction false} RecordsSayProgram(ts: seq<Text>, rec: Option<Instr>, ideal: Option<Instr>)
    requires SameSoFar(rec, ideal)
    ensures Records(ts, rec, false).Some? <==> Records(ts, ideal, true).Some?
    ensures Records(ts, rec, false).Some? ==>
      SameMeanings(Records(ts, rec, false).value, Records(ts, ideal, true).value)
          && AllExact(Records(ts, ideal, true).value)
    decreases |ts|
  {
    if ts != [] && Operands(ts) < |ts| {
      AssignSame(ts, rec, ideal);
      var a, b := Assign(ts, rec, false), Assign(ts, ideal, true);
      if a.Some? && Keyword(ts[0]) != Some(EXIT) {
        RecordsSayProgram(ts[1 + Operands(ts)..], a, b);
        var r := Records(ts, rec, false);
        if r.Some? {
          var p := Records(ts, ideal, true).value;
          var later := Records(ts[1 + Operands(ts)..], b, true).value;
          assert p[1..] == later;
          SameMeaningsCons(a.value, Records(ts[1 + Operands(ts)..], a, false).value, p);
          ExactCons(b.value, later);
        }
      }
    }
  }

  lemma ExactCons(i: Instr, list: seq<Instr>)
    ensures AllExact([i] + list) <==> Exact(i) && AllExact(list)
  {
    assert ([i] + list)[0] == i;
    forall k | 0 <= k < |list| ensures ([i] + list)[k + 1] == list[k] {}
    if AllExact([i] + list) {
      forall k | 0 <= k < |list| ensures Exact(list[k]) { assert Exact(([i] + list)[k + 1]); }
    }
  }

  lemma AssignExact(ts: seq<Text>, rec: Option<Instr>)
    requires ts != [] && Operands(ts) < |ts| && (rec.Some? ==> Exact(rec.value))
    ensures Assign(ts, rec, false).Some? ==>
      (Exact(Assign(ts, rec, false).value) <==> !(Keyword(ts[0]) == Some(F_SEEK) && HoldsThird(rec)))
    ensures HoldsThird(Assign(ts, rec, false)) <==> match Keyword(ts[0])
            case None => HoldsThird(rec)
            case Some(c) => Arity(c) == 3 || (c == F_SEEK && HoldsThird(rec))
  {
  }

  /** Every packed record is exact if and only if no F_SEEK inherits a third operand. */
  lemma {:induction false} ExactIffSeekSafe(ts: seq<Text>, rec: Option<Instr>)
    requires Records(ts, rec, false).Some? && (rec.Some? ==> Exact(rec.value))
    ensures AllExact(Records(ts, rec, false).value) <==> SeekSafe(ts, HoldsThird(rec))
    decreases |ts|
  {
    var a := Assign(ts, rec, false);
    AssignExact(ts, rec);
    if Keyword(ts[0]) == Some(EXIT) {
      ExactCons(a.value, []);
    } else {
      var rest := ts[1 + Operands(ts)..];
      var later := Records(rest, a, false).value;
      ExactCons(a.value, later);
      if Exact(a.value) { ExactIffSeekSafe(rest, a); }
    }
  }

  /** Packing by NULL is never shorter than packing by opcode, and equal exactly when every record is exact. */
  lemma {:induction false} ListEncodersAgreeIff(list: seq<Instr>)
    requires AllComplete(list)
    ensures |EncodeListByNull(list)| >= |EncodeList(list)|
    ensures EncodeListByNull(list) == EncodeList(list) <==> AllExact(list)
    ensures |EncodeListByNull(list)| == |EncodeList(list)| ==> AllExact(list)
  {
    if list != [] {
      ListEncodersAgreeIff(list[1..]);
      EncodersAgreeIff(list[0]);
      ByNullLonger(list[0]);
      ExactCons(list[0], list[1..]);
      assert [list[0]] + list[1..] == list;
    }
  }

  lemma ByNullLonger(i: Instr)
    requires Complete(i)
    ensures |EncodeByNull(i)| >= |EncodeByCode(i)|
    ensures |EncodeByNull(i)| == |EncodeByCode(i)| ==> Exact(i)
  {
    var n, m := Arity(i.code), NonNull(i.params);
    LeadingGrows(i.params, n, m);
    var extra := Leading(i.params, m)[n..];
    StringsBytesConcat(Leading(i.params, n), extra);
    if n < m {
      assert extra != [] && |StringsBytes(extra)| >= |StringBytes(extra[0])| >= 5;
    }
  }

  lemma {:induction false} EncodingIsMeaning(xs: seq<Instr>, ys: seq<Instr>)
    requires SameMeanings(xs, ys) && AllComplete(xs) && AllComplete(ys)
    ensures EncodeList(xs) == EncodeList(ys)
  {
    if xs != [] {
      assert MeaningOf(xs[0]) == MeaningOf(ys[0]);
      forall k | 0 <= k < |xs[1..]|
        ensures Complete(xs[1..][k]) && Complete(ys[1..][k]) && MeaningOf(xs[1..][k]) == MeaningOf(ys[1..][k])
      {
        assert xs[1..][k] == xs[k + 1] && ys[1..][k] == ys[k + 1];
      }
      EncodingIsMeaning(xs[1..], ys[1..]);
    }
  }

  /** The bytes the parser packs are the bytes of the program it read if and only if no F_SEEK inherits a third
      operand from an earlier F_READ or F_WRITE. */
  lemma ParserFaithfulIff(ts: seq<Text>)
    requires Records(ts, None, false).Some?
    ensures Program(ts).Some? && AllComplete(Program(ts).value)
    ensures EncodeListByNull(Records(ts, None, false).value) == EncodeList(Program(ts).value) <==> SeekSafe(ts, false)
  {
    RecordsSayProgram(ts, None, None);
    var r, p := Records(ts, None, false).value, Program(ts).value;
    EncodingIsMeaning(r, p);
    ListEncodersAgreeIff(r);
    ExactIffSeekSafe(ts, None);
  }

  lemma {:induction false} ProgramEndsInExit(ts: seq<Text>, rec: Option<Instr>)
    requires Records(ts, rec, true).Some? && (rec.Some? ==>
               Complete(rec.value) && Known(rec.value.code) && rec.value.code != EXIT)
    ensures IsProgram(Records(ts, rec, true).value)
    decreases |ts|
  {
    var a := Assign(ts, rec, true);
    if Keyword(ts[0]) != Some(EXIT) {
      var rest := ts[1 + Operands(ts)..];
      ProgramEndsInExit(rest, a);
      ProgramCons(a.value, Records(rest, a, true).value);
    }
  }

  lemma ProgramCons(i: Instr, list: seq<Instr>)
    requires IsProgram(list) && Complete(i) && Known(i.code) && i.code != EXIT
    ensures IsProgram([i] + list)
  {
    forall k | 0 <= k < |[i] + list|
      ensures Complete(([i] + list)[k]) && Known(([i] + list)[k].code) && (([i] + list)[k].code == EXIT ==> k == |list|)
    {
      if k > 0 { assert ([i] + list)[k] == list[k - 1]; }
    }
  }

  /** From pseudocode to the kernel: without such an F_SEEK the EXIT-terminated decoder returns what the source text
      says, and consumes exactly what the parser packed. */
  lemma ParserRoundTrip(ts: seq<Text>, rest: seq<byte>, before: Params)
    requires Records(ts, None, false).Some? && SeekSafe(ts, false)
    ensures Program(ts).Some?
    ensures var t := TakeProgram(EncodeListByNull(Records(ts, None, false).value) + rest, before);
            t.Some? && t.value.rest == rest && SameMeanings(t.value.value, Program(ts).value)
  {
    ParserFaithfulIff(ts);
    ProgramEndsInExit(ts, None);
    ProgramRoundTrip(Program(ts).value, rest, before);
  }

  // ----- the departing case -----

  const READ_LINE: Instr := Instr(F_READ, Params(Some("a"), Some("0"), Some("4")))
  const SEEK_LINE: Instr := Instr(F_SEEK, Params(Some("a"), Some("8"), Some("4")))
  const EXIT_LINE: Instr := Instr(EXIT, Params(None, None, None))

  lemma StaleRecords()
    ensures Records(["F_READ", "a", "0", "4", "F_SEEK", "a", "8", "EXIT"], None, false)
            == Some([READ_LINE, SEEK_LINE, EXIT_LINE])
    ensures !SeekSafe(["F_READ", "a", "0", "4", "F_SEEK", "a", "8", "EXIT"], false)
  {
    var all: seq<Text> := ["F_READ", "a", "0", "4", "F_SEEK", "a", "8", "EXIT"];
    var two: seq<Text> := ["F_SEEK", "a", "8", "EXIT"];
    var one: seq<Text> := ["EXIT"];
    assert Keyword("F_READ") == Some(F_READ);
    assert Keyword("F_SEEK") == Some(F_SEEK);
    assert Keyword("EXIT") == Some(EXIT);
    assert all[4..] == two && two[3..] == one;
    assert Assign(two, Some(READ_LINE), false) == Some(SEEK_LINE) && Assign(all, None, false) == Some(READ_LINE);
    assert Records(one, Some(SEEK_LINE), false) == Some([EXIT_LINE]);
    assert [SEEK_LINE] + [EXIT_LINE] == [SEEK_LINE, EXIT_LINE];
    assert [READ_LINE] + [SEEK_LINE, EXIT_LINE] == [READ_LINE, SEEK_LINE, EXIT_LINE];
    assert Records(two, Some(READ_LINE), false) == Some([SEEK_LINE, EXIT_LINE]);
  }

  /** What is left of the stale operand is read as a SET whose first operand is longer than the message. */
  lemma LeftoverFails(before: Params)
    ensures TakeBySwitch(StringBytes("4") + Word(EXIT), before) == None
  {
    var b := StringBytes("4") + Word(EXIT);
    var tail: seq<byte> := [52, 0, 14, 0, 0, 0];
    assert CharBytes("4") == [52];
    assert Word(EXIT) == [14, 0, 0, 0];
    assert b == Word(2) + tail;
    WordTaken(2, tail);
    LengthTooLarge(tail);
    SetNeedsOperand(b, tail, before);
  }

  lemma LengthTooLarge(tail: seq<byte>)
    requires tail == [52, 0, 14, 0, 0, 0]
    ensures TakeString(tail) == None
  {
    assert tail[..4] == [52, 0, 14, 0];
    var n := FromWord(tail[..4]);
    assert n == 52 + 256 * (256 * 14);
    assert TakeWord(tail) == Some(Taken(n, tail[4..]));
    assert Take(tail[4..], n) == None;
  }

  lemma SetNeedsOperand(b: seq<byte>, tail: seq<byte>, before: Params)
    requires TakeWord(b) == Some(Taken(SET, tail)) && TakeString(tail) == None
    ensures TakeBySwitch(b, before) == None
  {
    assert ArityBySwitch(SET) == 2;
  }

  /** F_READ directly before F_SEEK: the kernel's decoder runs off the end of the message. */
  lemma StaleSeekBreaksDecoder(before: Params)
    ensures var ts: seq<Text> := ["F_READ", "a", "0", "4", "F_SEEK", "a", "8", "EXIT"];
            !SeekSafe(ts, false) && Records(ts, None, false).Some?
            && TakeProgram(EncodeListByNull(Records(ts, None, false).value), before) == None
  {
    StaleRecords();
    var leftover := StringBytes("4") + Word(EXIT);
    StaleBytes(leftover, EncodeByCode(SEEK_LINE) + leftover);
    LineDecoded(READ_LINE, EncodeByCode(SEEK_LINE) + leftover, before);
    var read := TakeInstr(EncodeByCode(READ_LINE) + (EncodeByCode(SEEK_LINE) + leftover), before).value.value;
    LineDecoded(SEEK_LINE, leftover, read.params);
    var seek := TakeInstr(EncodeByCode(SEEK_LINE) + leftover, read.params).value.value;
    LeftoverFails(seek.params);
  }

  /** Decoding a program that starts with a well-packed line fails when decoding what follows the line fails. */
  lemma LineDecoded(i: Instr, rest: seq<byte>, before: Params)
    requires Complete(i) && Known(i.code) && i.code != EXIT
    ensures var t := TakeInstr(EncodeByCode(i) + rest, before);
            t.Some? && (TakeProgram(rest, t.value.value.params) == None ==>
                  TakeProgram(EncodeByCode(i) + rest, before) == None)
  {
    InstrTaken(i, rest, before);
    SwitchAgrees(EncodeByCode(i) + rest, before);
  }

  lemma StaleBytes(leftover: seq<byte>, afterRead: seq<byte>)
    requires leftover == StringBytes("4") + Word(EXIT) && afterRead == EncodeByCode(SEEK_LINE) + leftover
    ensures EncodeListByNull([READ_LINE, SEEK_LINE, EXIT_LINE]) == EncodeByCode(READ_LINE) + afterRead
  {
    var all := [READ_LINE, SEEK_LINE, EXIT_LINE];
    assert all[1..] == [SEEK_LINE, EXIT_LINE] && all[1..][1..] == [EXIT_LINE] && all[1..][1..][1..] == [];
    SeekBytes();
    assert EncodeByNull(EXIT_LINE) == Word(EXIT) + [];
    assert EncodeByNull(READ_LINE) == EncodeByCode(READ_LINE);
    assert EncodeListByNull([EXIT_LINE]) == EncodeByNull(EXIT_LINE) + [];
    assert EncodeListByNull([SEEK_LINE, EXIT_LINE]) == EncodeByNull(SEEK_LINE) + EncodeListByNull([EXIT_LINE]);
  }

  lemma SeekBytes()
    ensures EncodeByNull(SEEK_LINE) == EncodeByCode(SEEK_LINE) + StringBytes("4")
  {
    var args: seq<Text> := ["a", "8"];
    var third: seq<Text> := ["4"];
    assert Leading(SEEK_LINE.params, 3) == args + third && Leading(SEEK_LINE.params, 2) == args;
    StringsBytesConcat(args, third);
    assert third[1..] == [];
    assert StringsBytes(third) == StringBytes("4") + [];
  }
}
