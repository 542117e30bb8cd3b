/** The data file (store.go:173-292): magic, version, length, deflated JSON and a
    checksum. JSON and deflate are parameters; what is assumed of them is said in
    RoundTrips, ObjectShape and BlankShape. */
module FileFormat {
  import opened Basics
  import opened Model
  import opened BoardSpec
  import opened BoardInvariants
  import opened StateDocument
  import Crc32c

  const MAGIC: Bytes := [0x41, 0x42, 0x44, 0x32]
  const OLD_MAGIC: Bytes := [0x41, 0x42, 0x44]
  const FILE_VERSION: bv8 := 2
  const HEADER: int := 13
  const MAX_DECOMPRESSED: int := 0x4000_0000
  const TWO_64: int := 0x1_0000_0000_0000_0000

  const STATE_KEYS: set<string> :=
    {"version", "projects", "tasks", "agents", "users", "activity", "next_activity_id", "archived_through"}

  /** What a deflate stream yields, and whether it ends properly. */
  datatype Stream = Stream(out: Bytes, ended: bool)

  /** `keys` are the names at the top level of a JSON object; `blank` is
      `len(bytes.TrimSpace(b)) == 0`. */
  datatype Codec = Codec(
    marshal: State -> Bytes,
    keys: Bytes -> Option<set<string>>,
    unmarshal: Bytes -> Option<Doc>,
    deflate: Bytes -> Bytes,
    inflate: Bytes -> Stream,
    blank: Bytes -> bool)

  // ----- what is assumed of the codecs ------------------------------------------------

  /** JSON leaves out an agent's metadata when it is empty. */
  function StripAgent(a: Agent): Agent { if a.meta == Some(map[]) then a.(meta := None) else a }

  function Stripped(s: State): State {
    s.(agents := map name | name in s.agents :: StripAgent(s.agents[name]))
  }

  ghost predicate RoundTrips(c: Codec) {
    && (forall s :: c.unmarshal(c.marshal(s)) == Some(ToDoc(Stripped(s))))
    && (forall s :: c.keys(c.marshal(s)).Some? && "version" in c.keys(c.marshal(s)).value)
    && (forall s :: !c.blank(c.marshal(s)))
    && (forall b :: c.inflate(c.deflate(b)) == Stream(b, true))
  }

  predicate JsonSpace(x: bv8) { x == 0x20 || x == 0x09 || x == 0x0A || x == 0x0D }

  ghost predicate SpaceBetween(b: Bytes, from: int, to: int) {
    0 <= from <= to <= |b| && forall i :: from <= i < to ==> JsonSpace(b[i])
  }

  /** A brace and then a quotation mark, with nothing but white space before each. */
  ghost predicate OpensObject(b: Bytes, brace: int, quote: int) {
    && 0 <= brace < quote < |b|
    && b[brace] == 0x7B && b[quote] == 0x22
    && SpaceBetween(b, 0, brace) && SpaceBetween(b, brace + 1, quote)
  }

  ghost predicate ObjectShape(c: Codec) {
    forall b :: c.keys(b).Some? && c.keys(b).value != {} ==> exists i, j :: OpensObject(b, i, j)
  }

  predicate Letter(x: bv8) { 0x41 <= x <= 0x5A }

  ghost predicate BlankShape(c: Codec) {
    c.blank([]) && forall b :: c.blank(b) ==> forall i :: 0 <= i < |b| ==> !Letter(b[i])
  }

  // ----- numbers ------------------------------------------------------------------------

  /** The number a big-endian field stands for. */
  function BigEndian(b: Bytes): nat {
    if b == [] then 0 else 256 * BigEndian(b[..|b| - 1]) + b[|b| - 1] as int
  }

  lemma ByteNext(x: bv8)
    requires x != 255
    ensures (x + 1) as int == x as int + 1
  {
  }

  /** The byte n, counted up from zero: Dafny's own conversion is hard to reason about. */
  function ByteOf(n: nat): (b: bv8)
    requires n < 256
    ensures b as int == n
  {
    if n == 0 then 0
    else
      var p := ByteOf(n - 1);
      ByteNext(p);
      p + 1
  }

  /** The low k bytes of n, most significant first. */
  function Field(n: nat, k: nat): (b: Bytes)
    ensures |b| == k
  {
    if k == 0 then [] else Field(n / 256, k - 1) + [ByteOf(n % 256)]
  }

  function Power(k: nat): nat { if k == 0 then 1 else 256 * Power(k - 1) }

  lemma DivideBound(n: nat, p: nat)
    requires n < 256 * p
    ensures n / 256 < p
  {
  }

  lemma {:induction false} FieldValue(n: nat, k: nat)
    requires n < Power(k)
    ensures BigEndian(Field(n, k)) == n
  {
    if k > 0 {
      DivideBound(n, Power(k - 1));
      FieldValue(n / 256, k - 1);
      var b := Field(n, k);
      assert b[..|b| - 1] == Field(n / 256, k - 1);
    }
  }

  lemma ByteInjective(x: bv8, y: bv8)
    requires x as int == y as int
    ensures x == y
  {
  }

  lemma DigitsInjective(p: int, x: int, q: int, y: int)
    requires 0 <= x < 256 && 0 <= y < 256 && 256 * p + x == 256 * q + y
    ensures p == q && x == y
  {
  }

  lemma {:induction false} BigEndianInjective(a: Bytes, b: Bytes)
    requires |a| == |b| && BigEndian(a) == BigEndian(b)
    ensures a == b
    decreases |a|
  {
    if a != [] {
      var k := |a| - 1;
      DigitsInjective(BigEndian(a[..k]), a[k] as int, BigEndian(b[..k]), b[k] as int);
      ByteInjective(a[k], b[k]);
      BigEndianInjective(a[..k], b[..k]);
      assert a == a[..k] + [a[k]] && b == b[..k] + [b[k]];
    }
  }

  function Field32(c: bv32): (b: Bytes)
    ensures |b| == 4
  {
    [((c >> 24) & 0xFF) as bv8, ((c >> 16) & 0xFF) as bv8, ((c >> 8) & 0xFF) as bv8, (c & 0xFF) as bv8]
  }

  function Join32(x: bv8, y: bv8, z: bv8, w: bv8): bv32 {
    ((x as bv32) << 24) | ((y as bv32) << 16) | ((z as bv32) << 8) | (w as bv32)
  }

  function BigEndian32(b: Bytes): bv32
    requires |b| == 4
  {
    Join32(b[0], b[1], b[2], b[3])
  }

  lemma Join32OfField(c: bv32)
    ensures BigEndian32(Field32(c)) == c
  {
  }

  lemma Join32Injective(x: bv8, y: bv8, z: bv8, w: bv8, x': bv8, y': bv8, z': bv8, w': bv8)
    requires Join32(x, y, z, w) == Join32(x', y', z', w')
    ensures x == x' && y == y' && z == z' && w == w'
  {
  }

  lemma BigEndian32Injective(a: Bytes, b: Bytes)
    requires |a| == |b| == 4 && BigEndian32(a) == BigEndian32(b)
    ensures a == b
  {
    hide Join32;
    Join32Injective(a[0], a[1], a[2], a[3], b[0], b[1], b[2], b[3]);
  }

  // ----- reading ---------------------------------------------------------------------------

  datatype Problem = Corrupt | Refused | MalformedJson

  datatype StateRead = Board(board: State) | NotBoard(problem: Problem)

  /** Maps that are missing become empty. */
  function Filled(d: Doc): Doc {
    d.(projects := Some(Table(d.projects)), tasks := Some(Table(d.tasks)),
       agents := Some(Table(d.agents)), users := Some(Table(d.users)))
  }

  ghost predicate ValidDoc(d: Doc) { NoNulls(d) && ValidState(ToState(d)) }

  ghost function ReadState(c: Codec, b: Bytes): StateRead {
    if c.blank(b) then Board(NEW_STATE)
    else if c.keys(b).None? then NotBoard(MalformedJson)
    else if STATE_KEYS * c.keys(b).value == {} then NotBoard(Refused)
    else
      match c.unmarshal(b)
      case None => NotBoard(MalformedJson)
      case Some(d) =>
        if d.version > SCHEMA_VERSION || d.version < 0 then NotBoard(Refused)
        else
          var d' := Filled(Migrated(d));
          if ValidDoc(d') then Board(ToState(d')) else NotBoard(Refused)
  }

  predicate SameRows<T(==)>(rows: Rows<T>, m: map<string, T>) {
    && m.Keys == Table(rows).Keys && forall k :: k in m ==> Table(rows)[k] == Some(m[k])
  }

  /** The board that a document stands for: its rows, migrated, and the rest as it is. */
  ghost predicate StandsFor(d: Doc, s: State) {
    && s.version == 3 && SameRows(d.projects, s.projects) && SameRows(d.agents, s.agents)
    && SameRows(d.users, s.users)
    && s.tasks.Keys == Table(d.tasks).Keys
    && (forall id :: id in s.tasks ==> RowKept(Table(d.tasks)[id], Some(s.tasks[id]), d.version < 1))
    && s.activity == d.activity && s.nextActivityID == d.nextActivityID && s.archivedThrough == d.archivedThrough
  }

  /** Nothing in it, and nothing numbered yet. */
  predicate IsEmptyBoard(s: State) {
    && s.version == 3 && s.projects == map[] && s.tasks == map[] && s.agents == map[] && s.users == map[]
    && s.activity == [] && s.nextActivityID == 0 && s.archivedThrough == 0
  }

  predicate BoardKey(key: string) {
    || key == "version" || key == "projects" || key == "tasks" || key == "agents" || key == "users"
    || key == "activity" || key == "next_activity_id" || key == "archived_through"
  }

  /** It is a JSON object with at least one field of a board. */
  ghost predicate KnowsKeys(c: Codec, b: Bytes) {
    c.keys(b).Some? && exists key :: key in c.keys(b).value && BoardKey(key)
  }

  lemma FilledStands(d: Doc)
    ensures ValidDoc(Filled(Migrated(d))) ==> StandsFor(d, ToState(Filled(Migrated(d))))
  {
    hide ValidState;
    var m := Migrated(d);
    MigrationKeeps(d, m);
    if NoNulls(Filled(m)) {
      var s := ToState(Filled(m));
      forall id | id in s.tasks
        ensures RowKept(Table(d.tasks)[id], Some(s.tasks[id]), d.version < 1)
      {
        assert Table(Filled(m).tasks)[id] == Table(m.tasks)[id];
      }
      hide RowKept, Migrated;
    }
  }

  /** What a reader gets: an empty board from nothing but white space, and otherwise the
      board that the document stands for. */
  lemma ReadStands(c: Codec, b: Bytes)
    requires ReadState(c, b).Board?
    ensures c.blank(b) ==> IsEmptyBoard(ReadState(c, b).board)
    ensures !c.blank(b) ==>
      && KnowsKeys(c, b) && c.unmarshal(b).Some? && 0 <= c.unmarshal(b).value.version <= 3
      && StandsFor(c.unmarshal(b).value, ReadState(c, b).board) && ValidState(ReadState(c, b).board)
  {
    hide ValidState, StandsFor, Migrated, Filled;
    if !c.blank(b) {
      var key :| key in STATE_KEYS * c.keys(b).value;
      assert KnowsKeys(c, b);
      FilledStands(c.unmarshal(b).value);
    }
  }

  /** And it is refused for no other reason. */
  lemma StandingIsRead(c: Codec, b: Bytes, s: State)
    requires !c.blank(b) && KnowsKeys(c, b) && c.unmarshal(b).Some? && 0 <= c.unmarshal(b).value.version <= 3
    requires StandsFor(c.unmarshal(b).value, s) && ValidState(s)
    ensures ReadState(c, b) == Board(s)
  {
    var d := c.unmarshal(b).value;
    StandingIsFilled(d, s);
    hide ValidState, StandsFor, Migrated, Filled;
    var key :| key in c.keys(b).value && BoardKey(key);
    assert key in STATE_KEYS * c.keys(b).value;
  }

  lemma StandingIsFilled(d: Doc, s: State)
    requires StandsFor(d, s)
    ensures NoNulls(Filled(Migrated(d))) && ToState(Filled(Migrated(d))) == s
  {
    var m := Migrated(d);
    MigrationKeeps(d, m);
    hide Migrated;
    forall id | id in Table(m.tasks)
      ensures Table(m.tasks)[id] == Some(s.tasks[id])
    {
      assert RowKept(Table(d.tasks)[id], Some(s.tasks[id]), d.version < 1);
      assert RowKept(Table(d.tasks)[id], Table(m.tasks)[id], d.version < 1);
    }
    hide RowKept, Keeps;
    PlainIs(m.projects, s.projects);
    PlainIs(m.tasks, s.tasks);
    PlainIs(m.agents, s.agents);
    PlainIs(m.users, s.users);
  }

  lemma PlainIs<T>(rows: Rows<T>, m: map<string, T>)
    requires SameRows(rows, m)
    ensures NoNull(rows) && Plain(rows) == m && NoNull(Some(Table(rows))) && Plain(Some(Table(rows))) == m
  {
  }

  method LooksLikeBoard(c: Codec, b: Bytes) returns (problem: Option<Problem>)
    ensures problem == if c.keys(b).None? then Some(MalformedJson)
                       else if STATE_KEYS * c.keys(b).value == {} then Some(Refused) else None
  {
    if c.keys(b).None? { return Some(MalformedJson); }
    var left := STATE_KEYS;
    while left != {}
      invariant left <= STATE_KEYS && (STATE_KEYS - left) * c.keys(b).value == {}
      decreases |left|
    {
      var key :| key in left;
      if key in c.keys(b).value {
        assert key in STATE_KEYS * c.keys(b).value;
        return None;
      }
      left := left - {key};
    }
    assert STATE_KEYS - left == STATE_KEYS;
    return Some(Refused);
  }

  method DecodeState(c: Codec, b: Bytes) returns (r: StateRead)
    ensures r == ReadState(c, b)
    ensures r.Board? && !c.blank(b) ==> c.unmarshal(b).Some? && StandsFor(c.unmarshal(b).value, r.board)
  {
    hide ValidState, StandsFor, Keeps;
    if c.blank(b) { return Board(NEW_STATE); }
    var problem := LooksLikeBoard(c, b);
    if problem.Some? { return NotBoard(problem.value); }
    var parsed := c.unmarshal(b);
    if parsed.None? { return NotBoard(MalformedJson); }
    var d := parsed.value;
    if d.version > SCHEMA_VERSION || d.version < 0 { return NotBoard(Refused); }
    d := Migrate(d);
    if d.projects.None? { d := d.(projects := Some(map[])); }
    if d.tasks.None? { d := d.(tasks := Some(map[])); }
    if d.agents.None? { d := d.(agents := Some(map[])); }
    if d.users.None? { d := d.(users := Some(map[])); }
    assert d == Filled(Migrated(parsed.value));
    var ok := ValidateState(d);
    if !ok { return NotBoard(Refused); }
    r := Board(ToState(d));
    ReadStands(c, b);
  }

  /** A Go byte slice: its bytes, and how far it can be resliced. */
  datatype Slice = Slice(bytes: Bytes, capacity: nat) {
    predicate Valid() { |bytes| <= capacity }
  }

  datatype FileRead = Loaded(board: State, legacy: bool) | Rejected(problem: Problem) | Panicked

  /** The payload, expanded to at most the limit and one byte more. */
  ghost function ReadPayload(c: Codec, payload: Bytes): FileRead {
    var raw := c.inflate(payload);
    if |raw.out| > MAX_DECOMPRESSED || !raw.ended then Rejected(Corrupt)
    else
      match ReadState(c, raw.out)
      case Board(st) => Loaded(st, false)
      case NotBoard(_) => Rejected(Corrupt)
  }

  ghost function ReadFile(c: Codec, s: Slice): FileRead {
    var b := s.bytes;
    if !(MAGIC <= b) then
      if OLD_MAGIC <= b && !c.blank(b) then
        if s.capacity < 4 then Panicked else Rejected(Refused)
      else
        match ReadState(c, b)
        case Board(st) => Loaded(st, true)
        case NotBoard(problem) => Rejected(problem)
    else if |b| < HEADER + 4 then Rejected(Corrupt)
    else if b[4] != FILE_VERSION then Rejected(Refused)
    else
      var n := BigEndian(b[5..HEADER]);
      if n != |b| - HEADER - 4 then Rejected(Corrupt)
      else
        var payload := b[HEADER..HEADER + n];
        if Crc32c.Checksum(payload) != BigEndian32(b[HEADER + n..]) then Rejected(Corrupt)
        else ReadPayload(c, payload)
  }

  method DecodeFile(c: Codec, s: Slice) returns (r: FileRead)
    requires s.Valid()
    ensures r == ReadFile(c, s)
  {
    var b := s.bytes;
    if !(MAGIC <= b) {
      if OLD_MAGIC <= b && !c.blank(b) { return if s.capacity < 4 then Panicked else Rejected(Refused); }
      var st := DecodeState(c, b);
      return match st case Board(board) => Loaded(board, true) case NotBoard(problem) => Rejected(problem);
    }
    if |b| < HEADER + 4 { return Rejected(Corrupt); }
    if b[4] != FILE_VERSION { return Rejected(Refused); }
    var n := BigEndian(b[5..HEADER]);
    if n != |b| - HEADER - 4 { return Rejected(Corrupt); }
    var payload := b[HEADER..HEADER + n];
    if Crc32c.Checksum(payload) != BigEndian32(b[HEADER + n..]) { return Rejected(Corrupt); }
    var raw := c.inflate(payload);
    if |raw.out| <= MAX_DECOMPRESSED && !raw.ended { return Rejected(Corrupt); }
    if |raw.out| > MAX_DECOMPRESSED { return Rejected(Corrupt); }
    hide BigEndian, BigEndian32, Crc32c.Checksum, ReadState;
    var st := DecodeState(c, raw.out);
    return match st case Board(board) => Loaded(board, false) case NotBoard(_) => Rejected(Corrupt);
  }

  /** Reading never goes out of bounds, except that the message about an unknown
      magic reslices to four bytes: a slice "ABD" without room for a fourth panics. */
  lemma PanicsOnlyOnBareMagic(c: Codec, s: Slice)
    requires s.Valid() && BlankShape(c)
    ensures ReadFile(c, s).Panicked? <==> s == Slice(OLD_MAGIC, 3)
  {
    hide ReadState, BigEndian, BigEndian32, Crc32c.Checksum;
    var b := s.bytes;
    if OLD_MAGIC <= b && s.capacity < 4 { assert b[..3] == b; }
    if s == Slice(OLD_MAGIC, 3) { assert Letter(b[0]); }
  }

  /** The file begins with ABD2. */
  predicate StartsNew(b: Bytes) { |b| >= 4 && b[0] == 0x41 && b[1] == 0x42 && b[2] == 0x44 && b[3] == 0x32 }

  /** The file begins with ABD. */
  predicate StartsBoard(b: Bytes) { |b| >= 3 && b[0] == 0x41 && b[1] == 0x42 && b[2] == 0x44 }

  /** What kind of file is read how: plain JSON is legacy, an unknown format is refused,
      a header that is cut off is corrupt. */
  lemma KindsOfFiles(c: Codec, s: Slice)
    ensures ReadFile(c, s).Loaded? ==> (ReadFile(c, s).legacy <==> !StartsNew(s.bytes))
    ensures !StartsBoard(s.bytes) ==>
      ReadFile(c, s) == match ReadState(c, s.bytes)
                        case Board(board) => Loaded(board, true)
                        case NotBoard(problem) => Rejected(problem)
    ensures StartsBoard(s.bytes) && !StartsNew(s.bytes) && !c.blank(s.bytes) && s.capacity >= 4 ==>
      ReadFile(c, s) == Rejected(Refused)
    ensures StartsNew(s.bytes) && |s.bytes| < 17 ==> ReadFile(c, s) == Rejected(Corrupt)
    ensures StartsNew(s.bytes) && |s.bytes| >= 17 && s.bytes[4] != 2 ==> ReadFile(c, s) == Rejected(Refused)
  {
    hide ReadState, BigEndian, BigEndian32, Crc32c.Checksum;
    assert StartsNew(s.bytes) <==> MAGIC <= s.bytes;
    assert StartsBoard(s.bytes) <==> OLD_MAGIC <= s.bytes;
    hide StartsNew, StartsBoard;
  }

  /** Whatever is loaded passes ValidateState and carries the current version. */
  lemma LoadedIsValid(c: Codec, s: Slice)
    requires ReadFile(c, s).Loaded?
    ensures ValidState(ReadFile(c, s).board) && ReadFile(c, s).board.version == SCHEMA_VERSION
  {
    hide BigEndian, BigEndian32, Crc32c.Checksum;
    WellFormedNew();
    hide ValidState;
  }

  lemma WellFormedNew()
    ensures ValidState(NEW_STATE)
  {
  }

  // ----- writing -----------------------------------------------------------------------------

  class StateRef {
    var v: State
    constructor (v: State)
      ensures this.v == v
    {
      this.v := v;
    }
  }

  function FileOf(payload: Bytes): Bytes {
    MAGIC + [FILE_VERSION] + Field(|payload|, 8) + payload + Field32(Crc32c.Checksum(payload))
  }

  function Current(s: State): State { s.(version := SCHEMA_VERSION) }

  function Payload(c: Codec, s: State): Bytes { c.deflate(c.marshal(Current(s))) }

  /** Writes the board with the current schema version, and marks it so. */
  method EncodeFile(c: Codec, st: StateRef) returns (b: Bytes)
    modifies st
    ensures st.v == Current(old(st.v))
    ensures b == FileOf(Payload(c, old(st.v)))
  {
    hide Field, Field32, Crc32c.Checksum;
    st.v := st.v.(version := SCHEMA_VERSION);
    var payload := c.deflate(c.marshal(st.v));
    b := MAGIC;
    b := b + [FILE_VERSION];
    b := b + Field(|payload|, 8);
    b := b + payload;
    b := b + Field32(Crc32c.Checksum(payload));
  }

  // ----- the round trip -----------------------------------------------------------------------

  /** Where the fields of a file are. */
  lemma FileParts(payload: Bytes)
    ensures var f := FileOf(payload);
      && |f| == HEADER + |payload| + 4
      && MAGIC <= f && f[4] == FILE_VERSION
      && f[5..HEADER] == Field(|payload|, 8)
      && f[HEADER..HEADER + |payload|] == payload
      && f[HEADER + |payload|..] == Field32(Crc32c.Checksum(payload))
  {
    hide Field, Field32, Crc32c.Checksum;
    var f := FileOf(payload);
    var check := Field32(Crc32c.Checksum(payload));
    assert f[..4] == MAGIC;
    assert f[5..HEADER] == Field(|payload|, 8);
    assert f[HEADER..HEADER + |payload|] == payload;
    assert f[HEADER + |payload|..] == check;
  }

  lemma DigitBelow(n: nat, p: nat)
    requires p > 0
    ensures n / 256 / p == n / (256 * p)
  {
    var q, r := n / 256, n % 256;
    assert n == 256 * q + r && q == p * (q / p) + q % p;
    assert n == (256 * p) * (q / p) + (256 * (q % p) + r) && 0 <= 256 * (q % p) + r < 256 * p;
    QuotientIs(n, 256 * p, q / p, 256 * (q % p) + r);
  }

  lemma QuotientIs(n: int, d: int, q: int, r: int)
    requires 0 <= r < d && n == d * q + r
    ensures n / d == q
  {
    var k := n / d - q;
    assert -d < d * k < d;
    assert k == 0 by {
      assert k >= 1 ==> d * k >= d;
      assert k <= -1 ==> d * k <= -d;
    }
  }

  lemma {:induction false} DigitAt(n: nat, k: nat, i: nat)
    requires i < k
    ensures Power(k - 1 - i) > 0 && Field(n, k)[i] as int == n / Power(k - 1 - i) % 256
    decreases k
  {
    if i < k - 1 {
      DigitAt(n / 256, k - 1, i);
      DigitBelow(n, Power(k - 2 - i));
    }
  }

  /** The bytes of a file: "ABD2", the format 2, the length of the payload in eight bytes,
      the payload, and its checksum in four bytes. */
  lemma FileBytes(payload: Bytes)
    ensures var f, at := FileOf(payload), 13 + |payload|;
      && |f| == at + 4 && f[..5] == [0x41, 0x42, 0x44, 0x32, 0x02] && f[13..at] == payload
      && ChecksumBytes(f[at..], Crc32c.Checksum(payload))
  {
    hide FileOf, Field, Field32, Crc32c.Checksum, ChecksumBytes;
    FileParts(payload);
    var f := FileOf(payload);
    assert f[..4] == MAGIC;
    assert f[..5] == f[..4] + [f[4]];
    Field32Bytes(Crc32c.Checksum(payload));
  }

  /** The most significant byte of the length comes first. */
  lemma LengthByte(payload: Bytes, i: nat)
    requires i < 8
    ensures Power(7 - i) > 0 && |FileOf(payload)| > 13
    ensures FileOf(payload)[5 + i] as int == |payload| / Power(7 - i) % 256
  {
    hide FileOf, Field, Field32, Power, Crc32c.Checksum, BigEndian;
    FileParts(payload);
    DigitAt(|payload|, 8, i);
    assert 8 - 1 - i == 7 - i;
    assert FileOf(payload)[5 + i] == FileOf(payload)[5..HEADER][i];
  }

  /** And of the checksum. */
  predicate ChecksumBytes(b: Bytes, c: bv32) {
    |b| == 4 && b[0] as bv32 == c >> 24 && b[1] as bv32 == (c >> 16) & 0xFF && b[2] as bv32 == (c >> 8) & 0xFF
    && b[3] as bv32 == c & 0xFF
  }

  lemma Field32Bytes(c: bv32)
    ensures ChecksumBytes(Field32(c), c)
  {
  }

  lemma Power8()
    ensures Power(8) == TWO_64
  {
    assert Power(2) == 65536;
    assert Power(4) == 0x1_0000_0000;
  }

  /** A file with a correct checksum is read as its payload. */
  lemma WrittenIsRead(c: Codec, payload: Bytes, capacity: nat)
    requires |payload| < TWO_64
    ensures ReadFile(c, Slice(FileOf(payload), capacity)) == ReadPayload(c, payload)
  {
    FileParts(payload);
    Power8();
    FieldValue(|payload|, 8);
    Join32OfField(Crc32c.Checksum(payload));
    hide Field, Field32, FileOf, BigEndian, BigEndian32, Crc32c.Checksum, ReadPayload, ReadState, Power;
  }

  lemma StrippedIsValid(s: State)
    ensures ValidState(Stripped(s)) <==> ValidState(s)
  {
    hide ValidTask, ValidParent, Behind, ValidUsers, IdsIncrease;
    var s' := Stripped(s);
    assert s'.agents.Keys == s.agents.Keys;
    forall name | name in s.agents
      ensures s'.agents[name].name == s.agents[name].name
    {
    }
  }

  lemma MarshalledIsRead(c: Codec, s: State)
    requires RoundTrips(c) && s.version == SCHEMA_VERSION
    ensures ReadState(c, c.marshal(s)) == if ValidState(s) then Board(Stripped(s)) else NotBoard(Refused)
  {
    var b, d := c.marshal(s), ToDoc(Stripped(s));
    ToDocAndBack(Stripped(s));
    StrippedIsValid(s);
    hide ValidState;
    assert "version" in STATE_KEYS * c.keys(b).value;
    assert c.unmarshal(b) == Some(d);
    assert Filled(Migrated(d)) == d;
  }

  /** Writing a board and reading it back gives the board, exactly when the board
      is valid and its JSON is within the limit on decompressed data; otherwise the
      file that was just written is rejected as corrupt. */
  lemma RoundTrip(c: Codec, s: State, capacity: nat)
    requires RoundTrips(c) && |Payload(c, s)| < TWO_64
    ensures ReadFile(c, Slice(FileOf(Payload(c, s)), capacity))
         == if |c.marshal(Current(s))| <= 1024 * 1024 * 1024 && ValidState(Current(s))
            then Loaded(Stripped(Current(s)), false) else Rejected(Corrupt)
  {
    hide FileOf, ReadState, ValidState;
    WrittenIsRead(c, Payload(c, s), capacity);
    MarshalledIsRead(c, Current(s));
  }

  /** No run of calls leads to a board whose file the next start refuses, unless
      its JSON is over the limit. */
  lemma ReachedBoardIsReadBack(c: Codec, cfg: Config, from: Time, calls: seq<Call>, capacity: nat)
    requires RoundTrips(c) && Run(cfg, NEW_STATE, from, calls)
    requires |Payload(c, Final(cfg, NEW_STATE, from, calls))| < TWO_64
    ensures var s := Final(cfg, NEW_STATE, from, calls);
      ReadFile(c, Slice(FileOf(Payload(c, s)), capacity)) == Loaded(Stripped(s), false)
      <==> |c.marshal(s)| <= 1024 * 1024 * 1024
  {
    hide FileOf, ReadFile, Stripped, Payload, RoundTrips;
    ReachableIsValid(cfg, from, calls);
    hide ValidState;
    var s := Final(cfg, NEW_STATE, from, calls);
    assert Current(s) == s;
    RoundTrip(c, s, capacity);
  }

  /** What Export hands out: the board without its users. */
  function Exported(s: State): State { Stripped(s).(users := map[]) }

  /** An export of a valid board is one, and imports as itself. (Dropping the users
      as a whole is what keeps it valid: a user without credentials is not.) */
  lemma ExportIsImportable(c: Codec, s: State)
    requires RoundTrips(c) && ValidState(s) && s.version == SCHEMA_VERSION
    ensures ReadState(c, c.marshal(s)) == Board(Stripped(s))
    ensures ReadState(c, c.marshal(Exported(s))) == Board(Exported(s))
    ensures var e := Exported(s);
      && e.users == map[] && e.agents.Keys == s.agents.Keys && e == s.(users := map[], agents := e.agents)
      && forall name :: name in s.agents ==>
           e.agents[name].(meta := None) == s.agents[name].(meta := None)
           && (e.agents[name].meta == s.agents[name].meta || s.agents[name].meta == Some(map[]))
  {
    StrippedIsValid(s);
    MarshalledIsRead(c, s);
    WithoutUsers(Stripped(s));
    MarshalledIsRead(c, Exported(s));
    assert Stripped(Exported(s)).agents == Exported(s).agents;
  }

  lemma WithoutUsers(s: State)
    requires ValidState(s)
    ensures ValidState(s.(users := map[]))
  {
  }

  // ----- damage -----------------------------------------------------------------------------------

  /** The first byte, or the second, keeps these bytes from being a JSON object. */
  predicate NoOpening(b: Bytes) {
    || (|b| >= 1 && !JsonSpace(b[0]) && b[0] != 0x7B)
    || (|b| >= 2 && !JsonSpace(b[1]) && b[1] != 0x7B && b[1] != 0x22)
  }

  lemma NotAnObject(c: Codec, b: Bytes)
    requires ObjectShape(c) && BlankShape(c) && NoOpening(b)
    requires exists i :: 0 <= i < |b| && Letter(b[i])
    ensures ReadState(c, b).NotBoard?
  {
    hide ValidDoc, Migrated, Filled;
    assert forall i, j :: !OpensObject(b, i, j);
  }

  ghost predicate WellFramed(f: Bytes) {
    |f| >= HEADER + 4 && MAGIC <= f && f[4] == FILE_VERSION && BigEndian(f[5..HEADER]) == |f| - HEADER - 4
  }

  lemma WrittenIsFramed(payload: Bytes)
    requires |payload| < TWO_64
    ensures WellFramed(FileOf(payload))
  {
    FileParts(payload);
    Power8();
    FieldValue(|payload|, 8);
    hide FileOf, Power;
  }

  /** Every non-empty proper prefix of a data file is rejected. (The prefix "ABD"
      needs room for the byte that the error message shows.) */
  lemma TruncationDetected(c: Codec, payload: Bytes, n: nat, capacity: nat)
    requires ObjectShape(c) && BlankShape(c)
    requires |payload| < TWO_64 && 0 < n < |FileOf(payload)| && (n == 3 ==> capacity >= 4)
    ensures ReadFile(c, Slice(FileOf(payload)[..n], capacity)).Rejected?
  {
    WrittenIsFramed(payload);
    var f := FileOf(payload);
    hide FileOf, ReadFile;
    if n < 4 {
      BareMagicDetected(c, f, n, capacity);
    } else {
      PrefixDetected(c, f, n, capacity);
    }
  }

  lemma PrefixDetected(c: Codec, f: Bytes, n: nat, capacity: nat)
    requires WellFramed(f) && 4 <= n < |f|
    ensures ReadFile(c, Slice(f[..n], capacity)).Rejected?
  {
    var b := f[..n];
    assert MAGIC <= b;
    hide ReadFile, BigEndian;
    if n < HEADER + 4 {
      ShortHeaderDetected(c, b, capacity);
    } else {
      assert b[5..HEADER] == f[5..HEADER];
      WrongLengthDetected(c, b, capacity);
    }
  }

  lemma BareMagicDetected(c: Codec, f: Bytes, n: nat, capacity: nat)
    requires ObjectShape(c) && BlankShape(c)
    requires MAGIC <= f && 0 < n < 4 && (n == 3 ==> capacity >= 4)
    ensures ReadFile(c, Slice(f[..n], capacity)).Rejected?
  {
    hide ReadState;
    var b := f[..n];
    assert b[0] == 0x41 && Letter(b[0]) && !(MAGIC <= b);
    NotAnObject(c, b);
  }

  lemma ShortHeaderDetected(c: Codec, b: Bytes, capacity: nat)
    requires MAGIC <= b && |b| < HEADER + 4
    ensures ReadFile(c, Slice(b, capacity)).Rejected?
  {
    hide BigEndian, BigEndian32, Crc32c.Checksum, ReadPayload, ReadState;
  }

  lemma WrongLengthDetected(c: Codec, b: Bytes, capacity: nat)
    requires MAGIC <= b && |b| >= HEADER + 4 && BigEndian(b[5..HEADER]) != |b| - HEADER - 4
    ensures ReadFile(c, Slice(b, capacity)).Rejected?
  {
    hide BigEndian, BigEndian32, Crc32c.Checksum, ReadPayload, ReadState;
  }

  /** The files differ in one byte only. */
  predicate OneByteOff(a: Bytes, b: Bytes, k: nat) {
    |a| == |b| && k < |a| && b == a[k := b[k]] && b[k] != a[k]
  }

  lemma PartDiffers(a: Bytes, b: Bytes, k: nat, from: nat, to: nat)
    requires OneByteOff(a, b, k) && from <= k < to <= |a|
    ensures a[from..to] != b[from..to]
  {
    assert a[from..to][k - from] == a[k] && b[from..to][k - from] == b[k];
  }

  lemma MagicDamaged(c: Codec, f: Bytes, b: Bytes, k: nat, capacity: nat)
    requires ObjectShape(c) && BlankShape(c)
    requires MAGIC <= f && OneByteOff(f, b, k) && k < 4 <= capacity
    ensures ReadFile(c, Slice(b, capacity)).Rejected?
  {
    assert f[0] == 0x41 && f[1] == 0x42 && f[2] == 0x44 && f[3] == 0x32;
    PartDiffers(f, b, k, 0, 4);
    assert !(MAGIC <= b);
    assert Letter(if k == 0 then b[1] else b[0]);
    if k < 3 {
      PartDiffers(f, b, k, 0, 3);
      assert f[0..3] == OLD_MAGIC && !(OLD_MAGIC <= b);
      NotAnObject(c, b);
    }
    hide ReadState;
  }

  lemma LengthDamaged(f: Bytes, b: Bytes, k: nat)
    requires OneByteOff(f, b, k) && 5 <= k < HEADER <= |f|
    ensures BigEndian(b[5..HEADER]) != BigEndian(f[5..HEADER])
  {
    hide BigEndian;
    if BigEndian(b[5..HEADER]) == BigEndian(f[5..HEADER]) {
      BigEndianInjective(b[5..HEADER], f[5..HEADER]);
      PartDiffers(f, b, k, 5, HEADER);
      assert false;
    }
  }

  /** Damage of up to four adjacent bytes inside the payload. */
  predicate PayloadBurst(payload: Bytes, b: Bytes, i: nat) {
    && |b| == |FileOf(payload)|
    && b[..HEADER] == FileOf(payload)[..HEADER]
    && b[HEADER + |payload|..] == FileOf(payload)[HEADER + |payload|..]
    && Crc32c.Burst(payload, b[HEADER..HEADER + |payload|], i)
  }

  lemma PayloadDamageDetected(c: Codec, payload: Bytes, b: Bytes, i: nat, capacity: nat)
    requires |payload| < TWO_64 && PayloadBurst(payload, b, i)
    ensures ReadFile(c, Slice(b, capacity)) == Rejected(Corrupt)
  {
    var f := FileOf(payload);
    FileParts(payload);
    Power8();
    FieldValue(|payload|, 8);
    Join32OfField(Crc32c.Checksum(payload));
    var damaged := b[HEADER..HEADER + |payload|];
    Crc32c.BurstDetected(payload, damaged, i);
    HeaderKept(f, b);
    hide FileOf, Field, Field32, BigEndian, BigEndian32, Crc32c.Checksum, ReadPayload, ReadState, Power, Crc32c.Burst;
  }

  lemma HeaderKept(f: Bytes, b: Bytes)
    requires |b| == |f| >= HEADER && b[..HEADER] == f[..HEADER] && MAGIC <= f
    ensures MAGIC <= b && b[4] == f[4] && b[5..HEADER] == f[5..HEADER]
  {
    assert b[..4] == b[..HEADER][..4] == f[..HEADER][..4] == f[..4];
    assert b[4] == b[..HEADER][4] && f[4] == f[..HEADER][4];
    assert b[5..HEADER] == b[..HEADER][5..] && f[5..HEADER] == f[..HEADER][5..];
  }

  lemma ChecksumDamaged(c: Codec, payload: Bytes, b: Bytes, k: nat, capacity: nat)
    requires |payload| < TWO_64 && OneByteOff(FileOf(payload), b, k) && HEADER + |payload| <= k
    ensures ReadFile(c, Slice(b, capacity)) == Rejected(Corrupt)
  {
    var f := FileOf(payload);
    FileParts(payload);
    Power8();
    FieldValue(|payload|, 8);
    Join32OfField(Crc32c.Checksum(payload));
    var at := HEADER + |payload|;
    assert b[..HEADER] == f[..HEADER];
    HeaderKept(f, b);
    assert b[HEADER..at] == payload;
    assert f[at..|f|] == f[at..] && b[at..|f|] == b[at..];
    PartDiffers(f, b, k, at, |f|);
    hide FileOf, Field, Field32, BigEndian, BigEndian32, Crc32c.Checksum, ReadPayload, ReadState, Power;
    if BigEndian32(b[at..]) == BigEndian32(f[at..]) {
      BigEndian32Injective(b[at..], f[at..]);
      assert false;
    }
  }

  lemma FrameDamaged(c: Codec, f: Bytes, b: Bytes, k: nat, capacity: nat)
    requires WellFramed(f) && OneByteOff(f, b, k) && 4 <= k < HEADER
    ensures ReadFile(c, Slice(b, capacity)).Rejected?
  {
    assert b[..4] == f[..4];
    assert MAGIC <= b;
    if k > 4 { LengthDamaged(f, b, k); }
    hide BigEndian, BigEndian32, Crc32c.Checksum, ReadPayload, ReadState;
  }

  /** A file that differs from a written one in exactly one byte is rejected,
      wherever the byte is and whatever the length of the file. */
  lemma OneByteDamageDetected(c: Codec, payload: Bytes, b: Bytes, k: nat, capacity: nat)
    requires ObjectShape(c) && BlankShape(c)
    requires |payload| < TWO_64 && OneByteOff(FileOf(payload), b, k) && |b| <= capacity
    ensures ReadFile(c, Slice(b, capacity)).Rejected?
  {
    WrittenIsFramed(payload);
    FileParts(payload);
    var f := FileOf(payload);
    hide FileOf, Field, Field32, Crc32c.Checksum, ReadFile;
    if k < 4 {
      MagicDamaged(c, f, b, k, capacity);
    } else if k < HEADER {
      FrameDamaged(c, f, b, k, capacity);
    } else if k < HEADER + |payload| {
      PayloadByteIsBurst(payload, b, k);
      PayloadDamageDetected(c, payload, b, k - HEADER, capacity);
    } else {
      ChecksumDamaged(c, payload, b, k, capacity);
    }
  }

  lemma PayloadByteIsBurst(payload: Bytes, b: Bytes, k: nat)
    requires OneByteOff(FileOf(payload), b, k) && HEADER <= k < HEADER + |payload|
    ensures PayloadBurst(payload, b, k - HEADER)
  {
    FileParts(payload);
    hide FileOf, Field, Field32, Crc32c.Checksum;
    var f, at, i := FileOf(payload), HEADER + |payload|, k - HEADER;
    var damaged := b[HEADER..at];
    assert b[..HEADER] == f[..HEADER] && b[at..] == f[at..];
    assert damaged == payload[i := b[k]];
    assert damaged[i] != payload[i];
    assert damaged[..i] == payload[..i];
    if i + 4 <= |payload| { assert damaged[i + 4..] == payload[i + 4..]; }
  }
}
