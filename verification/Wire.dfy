/** The FIFO byte buffer and the instruction, segment and message formats that travel through it. */
module Wire {
  import opened Bytes

  /** A C string of 8-bit characters, short enough for its length and NUL to be counted in 32 bits. */
  type Text = s: string | |s| + 1 < WORD_LIMIT && forall i :: 0 <= i < |s| ==> 0 < s[i] as int < 256

  function CharBytes(s: Text): (b: seq<byte>)
    ensures |b| == |s|
  {
    seq(|s|, i requires 0 <= i < |s| => s[i] as int)
  }

  /** `buffer_pack_string`: the length with its NUL, the characters, the NUL. */
  function StringBytes(s: Text): seq<byte> {
    Word(|s| + 1) + CharBytes(s) + [0]
  }

  /** A decoded value and the bytes left behind it. */
  datatype Taken<+T> = Taken(value: T, rest: seq<byte>)

  /** `buffer_unpack`: None where it exits (nothing left) or would read past the end. */
  function Take(b: seq<byte>, n: nat): Option<Taken<seq<byte>>> {
    if b == [] || |b| < n then None else Some(Taken(b[..n], b[n..]))
  }

  function TakeWord(b: seq<byte>): Option<Taken<nat>> {
    match Take(b, 4) case None => None case Some(t) => Some(Taken(FromWord(t.value), t.rest))
  }

  /** The C string at the start of `b`: the characters before the first NUL. */
  function CString(b: seq<byte>): Option<string> {
    if b == [] then None
    else if b[0] == 0 then Some("")
    else match CString(b[1..]) case None => None case Some(s) => Some([b[0] as char] + s)
  }

  lemma {:induction false} CStringIsText(b: seq<byte>)
    requires |b| < WORD_LIMIT && CString(b).Some?
    ensures var s := CString(b).value; |s| < |b| && forall i :: 0 <= i < |s| ==> 0 < s[i] as int < 256
  {
    if b[0] != 0 { CStringIsText(b[1..]); }
  }

  /** `buffer_unpack_string`. */
  function TakeString(b: seq<byte>): Option<Taken<Text>> {
    match TakeWord(b)
    case None => None
    case Some(n) =>
      match Take(n.rest, n.value)
      case None => None
      case Some(t) =>
        match CString(t.value)
        case None => None
        case Some(s) => CStringIsText(t.value); Some(Taken(s, t.rest))
  }

  lemma {:induction false} CStringOfText(s: Text, k: nat)
    requires k <= |s|
    ensures CString(CharBytes(s)[k..] + [0]) == Some(s[k..])
    decreases |s| - k
  {
    var b := CharBytes(s)[k..] + [0];
    if k == |s| {
      assert b == [0] && s[k..] == "";
    } else {
      CStringOfText(s, k + 1);
      assert b[0] == CharBytes(s)[k] == s[k] as int;
      assert b[0] as char == s[k];
      assert b[1..] == CharBytes(s)[k + 1..] + [0];
      assert s[k..] == [s[k]] + s[k + 1..];
    }
  }

  lemma WordTaken(n: nat, rest: seq<byte>)
    requires n < WORD_LIMIT
    ensures TakeWord(Word(n) + rest) == Some(Taken(n, rest))
  {
    var b := Word(n) + rest;
    assert b[..4] == Word(n) && b[4..] == rest;
    WordRoundTrip(n, Word(n));
  }

  /** A packed string comes back whole and the bytes behind it are untouched. */
  lemma StringTaken(s: Text, rest: seq<byte>)
    ensures TakeString(StringBytes(s) + rest) == Some(Taken(s, rest))
  {
    var body := CharBytes(s) + [0];
    assert StringBytes(s) + rest == Word(|s| + 1) + (body + rest);
    WordTaken(|s| + 1, body + rest);
    assert (body + rest)[..|s| + 1] == body && (body + rest)[|s| + 1..] == rest;
    CStringOfText(s, 0);
    assert CharBytes(s)[0..] == CharBytes(s) && s[0..] == s;
  }

  // ----- instructions -----

  const F_READ := 0
  const F_WRITE := 1
  const SET := 2
  const MOV_IN := 3
  const MOV_OUT := 4
  const F_TRUNCATE := 5
  const F_SEEK := 6
  const CREATE_SEGMENT := 7
  const IO := 8
  const WAIT := 9
  const SIGNAL := 10
  const F_OPEN := 11
  const F_CLOSE := 12
  const DELETE_SEGMENT := 13
  const EXIT := 14
  const YIELD := 15

  type Opcode = n: nat | n < WORD_LIMIT

  /** `cuantosParametros`. */
  function Arity(code: Opcode): (n: nat)
    ensures n <= 3
  {
    if code == F_READ || code == F_WRITE then 3
    else if code == IO || code == WAIT || code == SIGNAL || code == F_OPEN || code == DELETE_SEGMENT || code == F_CLOSE
        then 1
    else if code == EXIT || code == YIELD then 0
    else 2
  }

  /** The three parameter pointers of an `instrucciones` record; None is NULL (or never assigned). */
  datatype Params = Params(p1: Option<Text>, p2: Option<Text>, p3: Option<Text>)

  datatype Instr = Instr(code: Opcode, params: Params)

  /** How many parameters precede the first NULL. */
  function NonNull(p: Params): (n: nat)
    ensures n <= 3
  {
    if p.p1 == None then 0 else if p.p2 == None then 1 else if p.p3 == None then 2 else 3
  }

  function Leading(p: Params, n: nat): seq<Text>
    requires n <= NonNull(p)
  {
    if n == 0 then [] else if n == 1 then [p.p1.value]
    else if n == 2 then [p.p1.value, p.p2.value] else [p.p1.value, p.p2.value, p.p3.value]
  }

  /** All the parameters the opcode asks for are there. */
  predicate Complete(i: Instr) {
    Arity(i.code) <= NonNull(i.params)
  }

  /** What an instruction says: its opcode and the parameters the opcode asks for. */
  datatype Meaning = Meaning(code: Opcode, args: seq<Text>)

  function MeaningOf(i: Instr): Meaning
    requires Complete(i)
  {
    Meaning(i.code, Leading(i.params, Arity(i.code)))
  }

  function StringsBytes(ss: seq<Text>): seq<byte> {
    if ss == [] then [] else StringBytes(ss[0]) + StringsBytes(ss[1..])
  }

  /** `empaquetar_instruccion`, which lets NULL pointers decide. */
  function EncodeByNull(i: Instr): seq<byte> {
    Word(i.code) + StringsBytes(Leading(i.params, NonNull(i.params)))
  }

  /** One turn of `empaquetar_lista_instrucciones`, which lets the opcode decide. */
  function EncodeByCode(i: Instr): seq<byte>
    requires Complete(i)
  {
    Word(i.code) + StringsBytes(Leading(i.params, Arity(i.code)))
  }

  lemma {:induction false} StringsBytesConcat(xs: seq<Text>, ys: seq<Text>)
    ensures StringsBytes(xs + ys) == StringsBytes(xs) + StringsBytes(ys)
  {
    if xs == [] {
      assert xs + ys == ys;
    } else {
      assert (xs + ys)[1..] == xs[1..] + ys;
      StringsBytesConcat(xs[1..], ys);
    }
  }

  lemma LeadingGrows(p: Params, n: nat, m: nat)
    requires n <= m <= NonNull(p)
    ensures Leading(p, m) == Leading(p, n) + Leading(p, m)[n..]
  {
  }

  /** The two encoders agree exactly on the records whose non-NULL prefix is what the opcode asks for. */
  lemma EncodersAgreeIff(i: Instr)
    requires Complete(i)
    ensures EncodeByNull(i) == EncodeByCode(i) <==> NonNull(i.params) == Arity(i.code)
  {
    var n, m := Arity(i.code), NonNull(i.params);
    LeadingGrows(i.params, n, m);
    var extra := Leading(i.params, m)[n..];
    StringsBytesConcat(Leading(i.params, n), extra);
    if n < m {
      assert extra != [] && |StringsBytes(extra)| >= |StringBytes(extra[0])| >= 5;
      assert |EncodeByNull(i)| > |EncodeByCode(i)|;
    }
  }

  /** Reading `n` parameters over the previous contents of the three variables. */
  function TakeParams(b: seq<byte>, n: nat, stale: Params): Option<Taken<Params>> {
    if n == 0 then Some(Taken(stale, b))
    else match TakeString(b)
      case None => None
      case Some(t1) =>
        if n == 1 then Some(Taken(Params(Some(t1.value), stale.p2, stale.p3), t1.rest))
        else match TakeString(t1.rest)
          case None => None
          case Some(t2) =>
            if n == 2 then Some(Taken(Params(Some(t1.value), Some(t2.value), stale.p3), t2.rest))
            else match TakeString(t2.rest)
              case None => None
              case Some(t3) => Some(Taken(Params(Some(t1.value), Some(t2.value), Some(t3.value)), t3.rest))
  }

  /** One turn of `desempaquetar_lista_instrucciones`. */
  function TakeInstr(b: seq<byte>, before: Params): Option<Taken<Instr>> {
    match TakeWord(b)
    case None => None
    case Some(c) =>
      match TakeParams(c.rest, Arity(c.value), before)
      case None => None
      case Some(p) => Some(Taken(Instr(c.value, p.value), p.rest))
  }

  lemma ParamsTaken(p: Params, n: nat, rest: seq<byte>, before: Params)
    requires n <= NonNull(p) && n <= 3
    ensures var t := TakeParams(StringsBytes(Leading(p, n)) + rest, n, before);
            t.Some? && t.value.rest == rest && n <= NonNull(t.value.value) && Leading(t.value.value, n) == Leading(p, n)
  {
    var ss := Leading(p, n);
    if n == 0 {
      assert StringsBytes(ss) + rest == rest;
    } else if n == 1 {
      assert ss[1..] == [];
      assert StringsBytes(ss) + rest == StringBytes(ss[0]) + rest;
      StringTaken(ss[0], rest);
    } else if n == 2 {
      assert ss[1..] == [ss[1]] && ss[1..][1..] == [];
      assert StringsBytes(ss[1..]) == StringBytes(ss[1]) + [];
      assert StringsBytes(ss) + rest == StringBytes(ss[0]) + (StringBytes(ss[1]) + rest);
      StringTaken(ss[0], StringBytes(ss[1]) + rest);
      StringTaken(ss[1], rest);
    } else {
      ThreeTaken(p, rest, before);
    }
  }

  lemma ThreeTaken(p: Params, rest: seq<byte>, before: Params)
    requires NonNull(p) == 3
    ensures TakeParams(StringsBytes(Leading(p, 3)) + rest, 3, before) == Some(Taken(p, rest))
  {
    var a, b, c := p.p1.value, p.p2.value, p.p3.value;
    assert [a, b, c][1..] == [b, c] && [b, c][1..] == [c] && [c][1..] == [];
    assert StringsBytes([c]) == StringBytes(c) + [];
    assert StringsBytes([b, c]) == StringBytes(b) + StringsBytes([c]);
    assert StringsBytes([a, b, c]) + rest == StringBytes(a) + (StringBytes(b) + (StringBytes(c) + rest));
    StringTaken(a, StringBytes(b) + (StringBytes(c) + rest));
    StringTaken(b, StringBytes(c) + rest);
    StringTaken(c, rest);
  }

  /** One instruction comes back with its meaning, whatever the parameter variables held before. */
  lemma InstrTaken(i: Instr, rest: seq<byte>, before: Params)
    requires Complete(i)
    ensures var t := TakeInstr(EncodeByCode(i) + rest, before);
            t.Some? && t.value.rest == rest && Complete(t.value.value) && MeaningOf(t.value.value) == MeaningOf(i)
  {
    var tail := StringsBytes(Leading(i.params, Arity(i.code)));
    assert EncodeByCode(i) + rest == Word(i.code) + (tail + rest);
    WordTaken(i.code, tail + rest);
    ParamsTaken(i.params, Arity(i.code), rest, before);
  }

  // ----- lists of instructions -----

  ghost predicate AllComplete(list: seq<Instr>) {
    forall k :: 0 <= k < |list| ==> Complete(list[k])
  }

  function EncodeList(list: seq<Instr>): seq<byte>
    requires AllComplete(list)
  {
    if list == [] then [] else EncodeByCode(list[0]) + EncodeList(list[1..])
  }

  function EncodeListByNull(list: seq<Instr>): seq<byte> {
    if list == [] then [] else EncodeByNull(list[0]) + EncodeListByNull(list[1..])
  }

  /** `desempaquetar_lista_instrucciones`. */
  function TakeList(b: seq<byte>, n: nat, before: Params): Option<Taken<seq<Instr>>> {
    if n == 0 then Some(Taken([], b))
    else match TakeInstr(b, before)
      case None => None
      case Some(t) =>
        match TakeList(t.rest, n - 1, t.value.params)
        case None => None
        case Some(ts) => Some(Taken([t.value] + ts.value, ts.rest))
  }

  /** Same opcodes with the same arguments, one by one. */
  ghost predicate SameMeanings(xs: seq<Instr>, ys: seq<Instr>) {
    && |xs| == |ys|
    && forall k :: 0 <= k < |xs| ==> Complete(xs[k]) && Complete(ys[k]) && MeaningOf(xs[k]) == MeaningOf(ys[k])
  }

  /** Any list of instructions survives packing and unpacking, and the bytes behind it are untouched. */
  lemma {:induction false} ListRoundTrip(list: seq<Instr>, rest: seq<byte>, before: Params)
    requires AllComplete(list)
    ensures var t := TakeList(EncodeList(list) + rest, |list|, before);
            t.Some? && t.value.rest == rest && SameMeanings(t.value.value, list)
  {
    if list == [] {
      assert EncodeList(list) + rest == rest;
    } else {
      var tail := EncodeList(list[1..]) + rest;
      assert EncodeList(list) + rest == EncodeByCode(list[0]) + tail;
      InstrTaken(list[0], tail, before);
      var t := TakeInstr(EncodeList(list) + rest, before).value;
      ListRoundTrip(list[1..], rest, t.value.params);
      SameMeaningsCons(t.value, TakeList(tail, |list| - 1, t.value.params).value.value, list);
    }
  }

  lemma SameMeaningsCons(x: Instr, xs: seq<Instr>, list: seq<Instr>)
    requires list != [] && Complete(x) && Complete(list[0]) && MeaningOf(x) == MeaningOf(list[0])
             && SameMeanings(xs, list[1..])
    ensures SameMeanings([x] + xs, list)
  {
    forall k | 0 <= k < |list|
      ensures Complete(([x] + xs)[k]) && Complete(list[k]) && MeaningOf(([x] + xs)[k]) == MeaningOf(list[k])
    {
      if k > 0 { assert list[1..][k - 1] == list[k]; }
    }
  }

  predicate Known(code: Opcode) { code <= YIELD }

  /** How many strings a case of the switch in `obtener_lista_instrucciones` reads; an unknown opcode reads none. */
  function ArityBySwitch(code: Opcode): nat {
    if code in {F_READ, F_WRITE} then 3
    else if code in {SET, MOV_IN, MOV_OUT, F_TRUNCATE, F_SEEK, CREATE_SEGMENT} then 2
    else if code in {IO, WAIT, SIGNAL, F_OPEN, F_CLOSE, DELETE_SEGMENT} then 1
    else 0
  }

  /** The switch and the count by opcode agree on every opcode there is. */
  lemma SwitchCounts(code: Opcode)
    ensures ArityBySwitch(code) == if Known(code) then Arity(code) else 0
  {
  }

  /** One turn of `obtener_lista_instrucciones`. */
  function TakeBySwitch(b: seq<byte>, before: Params): (r: Option<Taken<Instr>>)
    ensures r.Some? ==> |r.value.rest| < |b|
  {
    match TakeWord(b)
    case None => None
    case Some(c) =>
      match TakeParams(c.rest, ArityBySwitch(c.value), before)
      case None => None
      case Some(p) => ParamsShrink(c.rest, ArityBySwitch(c.value), before); Some(Taken(Instr(c.value, p.value), p.rest))
  }

  /** `obtener_lista_instrucciones`: instructions up to and including the first EXIT. */
  function TakeProgram(b: seq<byte>, before: Params): Option<Taken<seq<Instr>>>
    decreases |b|
  {
    match TakeBySwitch(b, before)
    case None => None
    case Some(t) =>
      if t.value.code == EXIT then Some(Taken([t.value], t.rest))
      else match TakeProgram(t.rest, t.value.params)
        case None => None
        case Some(ts) => Some(Taken([t.value] + ts.value, ts.rest))
  }

  lemma ParamsShrink(b: seq<byte>, n: nat, before: Params)
    ensures TakeParams(b, n, before).Some? ==> |TakeParams(b, n, before).value.rest| <= |b|
  {
  }

  /** A program: known opcodes, EXIT last and nowhere else. */
  ghost predicate IsProgram(list: seq<Instr>) {
    && list != [] && list[|list| - 1].code == EXIT
    && forall k :: 0 <= k < |list| ==>
          Complete(list[k]) && Known(list[k].code) && (list[k].code == EXIT ==> k == |list| - 1)
  }

  /** On known opcodes the two decoders read the same. */
  lemma SwitchAgrees(b: seq<byte>, before: Params)
    requires TakeInstr(b, before).Some? && Known(TakeInstr(b, before).value.value.code)
    ensures TakeBySwitch(b, before) == TakeInstr(b, before)
  {
  }

  /** The EXIT-terminated decoder reads a packed program exactly, stops behind its EXIT, and touches nothing after. */
  lemma {:induction false} ProgramRoundTrip(list: seq<Instr>, rest: seq<byte>, before: Params)
    requires IsProgram(list)
    ensures var t := TakeProgram(EncodeList(list) + rest, before);
            t.Some? && t.value.rest == rest && SameMeanings(t.value.value, list)
  {
    var tail := EncodeList(list[1..]) + rest;
    assert EncodeList(list) + rest == EncodeByCode(list[0]) + tail;
    InstrTaken(list[0], tail, before);
    var t := TakeInstr(EncodeList(list) + rest, before).value;
    SwitchAgrees(EncodeList(list) + rest, before);
    if |list| == 1 {
      assert tail == rest;
    } else {
      assert list[0].code != EXIT;
      forall k | 0 <= k < |list[1..]| ensures list[1..][k] == list[k + 1] {}
      ProgramRoundTrip(list[1..], rest, t.value.params);
      SameMeaningsCons(t.value, TakeProgram(tail, t.value.params).value.value, list);
    }
  }

  // ----- segments -----

  const INT_LIMIT := 0x8000_0000

  type int32 = x: int | -INT_LIMIT <= x < INT_LIMIT

  function IntBytes(x: int32): (b: seq<byte>)
    ensures |b| == 4
  {
    Word(if x < 0 then x + WORD_LIMIT else x)
  }

  function IntOf(n: nat): int32
    requires n < WORD_LIMIT
  {
    if n >= INT_LIMIT then n - WORD_LIMIT else n
  }

  function TakeInt(b: seq<byte>): Option<Taken<int32>> {
    match TakeWord(b) case None => None case Some(t) => Some(Taken(IntOf(t.value), t.rest))
  }

  datatype SegRow = SegRow(id: int32, idSegPcb: int32, pid: int32, base: int32, limite: int32)

  /** `empaquetar_segmento`. */
  function RowBytes(r: SegRow): seq<byte> {
    IntBytes(r.id) + IntBytes(r.idSegPcb) + IntBytes(r.pid) + IntBytes(r.base) + IntBytes(r.limite)
  }

  /** `desempaquetar_segmento`. */
  function TakeRow(b: seq<byte>): Option<Taken<SegRow>> {
    match TakeInt(b) case None => None case Some(a) =>
    match TakeInt(a.rest) case None => None case Some(c) =>
    match TakeInt(c.rest) case None => None case Some(d) =>
    match TakeInt(d.rest) case None => None case Some(e) =>
    match TakeInt(e.rest) case None => None case Some(f) =>
      Some(Taken(SegRow(a.value, c.value, d.value, e.value, f.value), f.rest))
  }

  lemma IntTaken(x: int32, rest: seq<byte>)
    ensures TakeInt(IntBytes(x) + rest) == Some(Taken(x, rest))
  {
    WordTaken(if x < 0 then x + WORD_LIMIT else x, rest);
  }

  lemma RowTaken(r: SegRow, rest: seq<byte>)
    ensures TakeRow(RowBytes(r) + rest) == Some(Taken(r, rest))
  {
    var e := IntBytes(r.limite) + rest;
    var d := IntBytes(r.base) + e;
    var c := IntBytes(r.pid) + d;
    var a := IntBytes(r.idSegPcb) + c;
    assert RowBytes(r) + rest == IntBytes(r.id) + a;
    IntTaken(r.id, a);
    IntTaken(r.idSegPcb, c);
    IntTaken(r.pid, d);
    IntTaken(r.base, e);
    IntTaken(r.limite, rest);
  }

  function TableBytes(rs: seq<SegRow>): seq<byte> {
    if rs == [] then [] else RowBytes(rs[0]) + TableBytes(rs[1..])
  }

  function TakeTable(b: seq<byte>, n: nat): Option<Taken<seq<SegRow>>> {
    if n == 0 then Some(Taken([], b))
    else match TakeRow(b)
      case None => None
      case Some(r) =>
        match TakeTable(r.rest, n - 1)
        case None => None
        case Some(rs) => Some(Taken([r.value] + rs.value, rs.rest))
  }

  lemma TableCons(b: seq<byte>, r: SegRow, mid: seq<byte>, rs: seq<SegRow>, rest: seq<byte>)
    requires TakeRow(b) == Some(Taken(r, mid)) && TakeTable(mid, |rs|) == Some(Taken(rs, rest))
    ensures TakeTable(b, |rs| + 1) == Some(Taken([r] + rs, rest))
  {
  }

  /** Any segment table, negative fields included, survives the wire exactly. */
  lemma {:induction false} TableRoundTrip(rs: seq<SegRow>, rest: seq<byte>)
    ensures TakeTable(TableBytes(rs) + rest, |rs|) == Some(Taken(rs, rest))
  {
    if rs == [] {
      assert TableBytes(rs) + rest == rest;
    } else {
      assert TableBytes(rs) + rest == RowBytes(rs[0]) + (TableBytes(rs[1..]) + rest);
      RowTaken(rs[0], TableBytes(rs[1..]) + rest);
      TableRoundTrip(rs[1..], rest);
      TableCons(TableBytes(rs) + rest, rs[0], TableBytes(rs[1..]) + rest, rs[1..], rest);
      assert [rs[0]] + rs[1..] == rs;
    }
  }

  // ----- messages -----

  /** A one-byte header and a length-prefixed payload. */
  datatype Message = Message(header: byte, payload: seq<byte>)

  predicate Sendable(m: Message) { |m.payload| < WORD_LIMIT }

  /** `__stream_create`. */
  function MessageBytes(m: Message): seq<byte>
    requires Sendable(m)
  {
    [m.header] + Word(|m.payload|) + m.payload
  }

  /** `stream_recv_header` followed by `stream_recv_buffer`; an empty payload reads nothing more. */
  function TakeMessage(b: seq<byte>): Option<Taken<Message>> {
    if b == [] then None
    else match TakeWord(b[1..])
      case None => None
      case Some(n) =>
        if n.value == 0 then Some(Taken(Message(b[0], []), n.rest))
        else match Take(n.rest, n.value)
          case None => None
          case Some(p) => Some(Taken(Message(b[0], p.value), p.rest))
  }

  function StreamBytes(ms: seq<Message>): seq<byte>
    requires forall k :: 0 <= k < |ms| ==> Sendable(ms[k])
  {
    if ms == [] then [] else MessageBytes(ms[0]) + StreamBytes(ms[1..])
  }

  function TakeStream(b: seq<byte>, n: nat): Option<Taken<seq<Message>>> {
    if n == 0 then Some(Taken([], b))
    else match TakeMessage(b)
      case None => None
      case Some(m) =>
        match TakeStream(m.rest, n - 1)
        case None => None
        case Some(ms) => Some(Taken([m.value] + ms.value, ms.rest))
  }

  lemma MessageTaken(m: Message, rest: seq<byte>)
    requires Sendable(m)
    ensures TakeMessage(MessageBytes(m) + rest) == Some(Taken(m, rest))
  {
    var b := MessageBytes(m) + rest;
    assert b[1..] == Word(|m.payload|) + (m.payload + rest);
    WordTaken(|m.payload|, m.payload + rest);
    assert (m.payload + rest)[..|m.payload|] == m.payload && (m.payload + rest)[|m.payload|..] == rest;
  }

  lemma StreamCons(b: seq<byte>, m: Message, mid: seq<byte>, ms: seq<Message>, rest: seq<byte>)
    requires TakeMessage(b) == Some(Taken(m, mid)) && TakeStream(mid, |ms|) == Some(Taken(ms, rest))
    ensures TakeStream(b, |ms| + 1) == Some(Taken([m] + ms, rest))
  {
  }

  /** Messages sent one after another, empty ones included, are received one after another. */
  lemma {:induction false} StreamRoundTrip(ms: seq<Message>, rest: seq<byte>)
    requires forall k :: 0 <= k < |ms| ==> Sendable(ms[k])
    ensures TakeStream(StreamBytes(ms) + rest, |ms|) == Some(Taken(ms, rest))
  {
    if ms == [] {
      assert StreamBytes(ms) + rest == rest;
    } else {
      assert StreamBytes(ms) + rest == MessageBytes(ms[0]) + (StreamBytes(ms[1..]) + rest);
      MessageTaken(ms[0], StreamBytes(ms[1..]) + rest);
      StreamRoundTrip(ms[1..], rest);
      StreamCons(StreamBytes(ms) + rest, ms[0], StreamBytes(ms[1..]) + rest, ms[1..], rest);
      assert [ms[0]] + ms[1..] == ms;
    }
  }
}
