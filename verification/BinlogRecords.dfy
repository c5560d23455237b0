/**
 The text form of the replica and slice binlog records: printing with spaces between the fields and a
 newline at the end, and parsing by splitting at spaces and converting decimal fields in place.
 */
module BinlogRecords {
  import opened Common

  datatype SliceKey = SliceKey(offset: int, length: int)

  /* ---------------------------------------------------------------- numbers */

  predicate IsDigit(c: char) { '0' <= c <= '9' }

  function Digit(d: nat): (c: char)
    requires d < 10
    ensures IsDigit(c) && c as int - '0' as int == d
  {
    ('0' as int + d) as char
  }

  /** Decimal notation, as printf writes it. */
  function Dec(n: nat): (s: Text)
    ensures s != [] && forall i | 0 <= i < |s| :: IsDigit(s[i])
  {
    if n < 10 then [Digit(n)] else Dec(n / 10) + [Digit(n % 10)]
  }

  datatype Number = Number(value: int, rest: Text)

  function Digits(s: Text, value: nat): Number {
    if s == [] || !IsDigit(s[0]) then Number(value, s)
    else Digits(s[1..], 10 * value + (s[0] as int - '0' as int))
  }

  predicate IsBlank(c: char) { c == ' ' || c == '\n' || c == '\t' || c == '\r' }

  function SkipBlanks(s: Text): Text {
    if s != [] && IsBlank(s[0]) then SkipBlanks(s[1..]) else s
  }

  /** strtol: blanks, a sign, digits; without digits nothing is consumed. */
  function Strtol(s: Text): Number {
    var t := SkipBlanks(s);
    var signed := t != [] && (t[0] == '-' || t[0] == '+');
    var digits := if signed then t[1..] else t;
    if digits == [] || !IsDigit(digits[0]) then Number(0, s)
    else
      var n := Digits(digits, 0);
      if signed && t[0] == '-' then Number(-n.value, n.rest) else n
  }

  lemma {:induction false} DigitsDec(n: nat, rest: Text)
    ensures Digits(Dec(n) + rest, 0) == Digits(rest, n)
    decreases n
  {
    if n < 10 {
      assert (Dec(n) + rest)[1..] == rest;
    } else {
      var last := [Digit(n % 10)];
      assert Dec(n) + rest == Dec(n / 10) + (last + rest);
      DigitsDec(n / 10, last + rest);
      assert (last + rest)[1..] == rest;
    }
  }

  lemma StrtolDec(n: nat, rest: Text)
    requires rest != [] && !IsDigit(rest[0])
    ensures Strtol(Dec(n) + rest) == Number(n, rest)
  {
    assert (Dec(n) + rest)[0] == Dec(n)[0];
    DigitsDec(n, rest);
  }

  /** The parse macros: the number must be followed by the given character and be large enough. */
  function ParseInt(s: Text, end: char, min: int): Option<int> {
    var n := Strtol(s);
    if n.rest == [] || n.rest[0] != end || n.value < min then None else Some(n.value)
  }

  /* ---------------------------------------------------------------- lines */

  function Join(fields: seq<Text>): Text
    requires fields != []
  {
    if |fields| == 1 then fields[0] + ['\n'] else fields[0] + [' '] + Join(fields[1..])
  }

  function AfterSpace(s: Text): Option<Text> {
    if s == [] then None else if s[0] == ' ' then Some(s[1..]) else AfterSpace(s[1..])
  }

  lemma {:induction false} AfterSpaceShorter(s: Text)
    ensures AfterSpace(s).Some? ==> |AfterSpace(s).value| < |s|
  {
    if s != [] && s[0] != ' ' { AfterSpaceShorter(s[1..]); }
  }

  /** split_string: the text from the start of each column on. */
  function Columns(s: Text): seq<Text>
    decreases |s|
  {
    AfterSpaceShorter(s);
    match AfterSpace(s)
    case None => [s]
    case Some(t) => [s] + Columns(t)
  }

  predicate Solid(s: Text) { forall i | 0 <= i < |s| :: s[i] != ' ' && s[i] != '\n' }

  lemma {:induction false} AfterField(field: Text, rest: Text)
    requires Solid(field)
    ensures AfterSpace(field + rest) == AfterSpace(rest)
  {
    if field != [] {
      assert (field + rest)[0] == field[0] && (field + rest)[1..] == field[1..] + rest;
      AfterField(field[1..], rest);
    } else {
      assert field + rest == rest;
    }
  }

  /** Splitting a printed line gives back its fields, each followed by the remainder of the line. */
  lemma {:induction false} ColumnsJoin(fields: seq<Text>, i: nat)
    requires fields != [] && i < |fields| && forall f | f in fields :: Solid(f)
    ensures |Columns(Join(fields))| == |fields| && Columns(Join(fields))[i] == Join(fields[i..])
    decreases |fields|
  {
    var f := fields[0];
    assert fields[0..] == fields;
    if |fields| == 1 {
      AfterField(f, ['\n']);
      assert AfterSpace(['\n']) == None by { assert ['\n'][1..] == []; }
    } else {
      var rest := Join(fields[1..]);
      assert Join(fields) == f + ([' '] + rest);
      AfterField(f, [' '] + rest);
      assert ([' '] + rest)[1..] == rest;
      ColumnsJoin(fields[1..], if i == 0 then 0 else i - 1);
      if i > 0 { assert fields[1..][i - 1..] == fields[i..]; }
    }
  }

  /** Parsing column i of a printed line, a decimal field. */
  lemma ParseField(fields: seq<Text>, i: nat, n: nat, min: int)
    requires i < |fields| && forall f | f in fields :: Solid(f)
    requires fields[i] == Dec(n)
    ensures |Columns(Join(fields))| == |fields|
    ensures ParseInt(Columns(Join(fields))[i], if i == |fields| - 1 then '\n' else ' ', min) ==
            if n < min then None else Some(n)
  {
    ColumnsJoin(fields, i);
    var tail := fields[i..];
    if |tail| == 1 {
      StrtolDec(n, ['\n']);
    } else {
      assert Join(tail) == Dec(n) + ([' '] + Join(tail[1..]));
      StrtolDec(n, [' '] + Join(tail[1..]));
    }
  }

  lemma CharField(fields: seq<Text>, i: nat, c: char)
    requires i < |fields| && (forall f | f in fields :: Solid(f)) && fields[i] == [c]
    ensures |Columns(Join(fields))| == |fields|
    ensures Columns(Join(fields))[i] != [] && Columns(Join(fields))[i][0] == c
  {
    ColumnsJoin(fields, i);
  }

  /* ---------------------------------------------------------------- replica records */

  datatype ReplicaRecord = ReplicaRecord(source: char, op: char, version: int, oid: int, offset: int,
                                         slice: Option<SliceKey>)

  datatype Result<+T> = Ok(value: T) | Invalid

  predicate SliceOp(op: char) { op == 'w' || op == 'a' || op == 'd' }
  predicate BlockOp(op: char) { op == 'D' || op == 'N' }

  /** What can be printed: non-negative numbers, and slice fields exactly for slice operations. */
  predicate Printable(r: ReplicaRecord) {
    r.version >= 0 && r.oid >= 0 && r.offset >= 0 && r.source != ' ' && r.source != '\n' &&
    (if r.slice.Some? then SliceOp(r.op) && r.slice.value.offset >= 0 && r.slice.value.length >= 0 else BlockOp(r.op))
  }

  predicate Acceptable(r: ReplicaRecord) {
    r.version >= 1 && r.oid >= 1 && (r.slice.Some? ==> r.slice.value.length >= 1)
  }

  function ReplicaFields(time: nat, r: ReplicaRecord): seq<Text>
    requires Printable(r)
  {
    [Dec(time), Dec(r.version), [r.source], [r.op], Dec(r.oid), Dec(r.offset)] +
    if r.slice.Some? then [Dec(r.slice.value.offset), Dec(r.slice.value.length)] else []
  }

  /** replica_binlog_log_slice and replica_binlog_log_block. */
  function PrintReplica(time: nat, r: ReplicaRecord): Text
    requires Printable(r)
  {
    Join(ReplicaFields(time, r))
  }

  /** replica_binlog_record_unpack. */
  function UnpackReplica(line: Text): Result<ReplicaRecord> {
    var cols := Columns(line);
    if |cols| < 6 || cols[2] == [] || cols[3] == [] then Invalid
    else
      var source, op := cols[2][0], cols[3][0];
      var version := ParseInt(cols[1], ' ', 1);
      if version == None then Invalid
      else if SliceOp(op) then
        if |cols| != 8 then Invalid
        else
          var oid, offset := ParseInt(cols[4], ' ', 1), ParseInt(cols[5], ' ', 0);
          var start, length := ParseInt(cols[6], ' ', 0), ParseInt(cols[7], '\n', 1);
          if oid == None || offset == None || start == None || length == None then Invalid
          else Ok(ReplicaRecord(source, op, version.value, oid.value, offset.value,
                                Some(SliceKey(start.value, length.value))))
      else if BlockOp(op) then
        if |cols| != 6 then Invalid
        else
          var oid, offset := ParseInt(cols[4], ' ', 1), ParseInt(cols[5], '\n', 0);
          if oid == None || offset == None then Invalid
          else Ok(ReplicaRecord(source, op, version.value, oid.value, offset.value, None))
      else Invalid
  }

  /** A printed record is read back as it was, exactly when its numbers are in range. */
  lemma ReplicaRoundTrip(time: nat, r: ReplicaRecord)
    requires Printable(r)
    ensures UnpackReplica(PrintReplica(time, r)) == if Acceptable(r) then Ok(r) else Invalid
  {
    var fields := ReplicaFields(time, r);
    forall f | f in fields ensures Solid(f) { }
    ParseField(fields, 1, r.version, 1);
    CharField(fields, 2, r.source);
    CharField(fields, 3, r.op);
    ParseField(fields, 4, r.oid, 1);
    ParseField(fields, 5, r.offset, 0);
    if r.slice.Some? {
      ParseField(fields, 6, r.slice.value.offset, 0);
      ParseField(fields, 7, r.slice.value.length, 1);
    }
  }

  /* ---------------------------------------------------------------- slice records */

  datatype Space = Space(path: int, trunk: int, subdir: int, offset: int, size: int)

  datatype SliceRecord =
    | AddSlice(op: char, oid: int, offset: int, slice: SliceKey, space: Space)
    | DeleteSlice(oid: int, offset: int, slice: SliceKey)
    | DeleteBlock(oid: int, offset: int)

  predicate PrintableSlice(r: SliceRecord) {
    r.oid >= 0 && r.offset >= 0 && (!r.DeleteBlock? ==> r.slice.offset >= 0 && r.slice.length >= 0) &&
    (r.AddSlice? ==>
       (r.op == 'w' || r.op == 'a') && r.space.path >= 0 && r.space.trunk >= 0 && r.space.subdir >= 0 &&
       r.space.offset >= 0 && r.space.size >= 0)
  }

  predicate AcceptableSlice(r: SliceRecord, pathExists: int -> bool) {
    r.oid >= 1 && (!r.DeleteBlock? ==> r.slice.length >= 1) &&
    (r.AddSlice? ==> pathExists(r.space.path) && r.space.trunk >= 1 && r.space.subdir >= 1)
  }

  function SliceFields(time: nat, version: nat, source: char, r: SliceRecord): seq<Text>
    requires PrintableSlice(r)
  {
    match r
    case AddSlice(op, oid, offset, slice, space) =>
      [Dec(time), Dec(version), [source], [op], Dec(oid), Dec(offset), Dec(slice.offset), Dec(slice.length),
       Dec(space.path), Dec(space.trunk), Dec(space.subdir), Dec(space.offset), Dec(space.size)]
    case DeleteSlice(oid, offset, slice) =>
      [Dec(time), Dec(version), [source], ['d'], Dec(oid), Dec(offset), Dec(slice.offset), Dec(slice.length)]
    case DeleteBlock(oid, offset) =>
      [Dec(time), Dec(version), [source], ['D'], Dec(oid), Dec(offset)]
  }

  /** The three printers of the slice binlog. */
  function PrintSlice(time: nat, version: nat, source: char, r: SliceRecord): Text
    requires PrintableSlice(r)
  {
    Join(SliceFields(time, version, source, r))
  }

  /** add_slice_set_fields. */
  function ParseAdd(cols: seq<Text>, op: char, oid: int, offset: int, pathExists: int -> bool): Result<SliceRecord> {
    if |cols| != 13 then Invalid
    else
      var start, length, path := ParseInt(cols[6], ' ', 0), ParseInt(cols[7], ' ', 1), ParseInt(cols[8], ' ', 0);
      if start == None || length == None || path == None || !pathExists(path.value) then Invalid
      else
        var trunk, subdir := ParseInt(cols[9], ' ', 1), ParseInt(cols[10], ' ', 1);
        var at, size := ParseInt(cols[11], ' ', 0), ParseInt(cols[12], '\n', 0);
        if trunk == None || subdir == None || at == None || size == None then Invalid
        else Ok(AddSlice(op, oid, offset, SliceKey(start.value, length.value),
                         Space(path.value, trunk.value, subdir.value, at.value, size.value)))
  }

  /** del_slice_set_fields. */
  function ParseDelete(cols: seq<Text>, oid: int, offset: int): Result<SliceRecord> {
    if |cols| != 8 then Invalid
    else
      var start, length := ParseInt(cols[6], ' ', 0), ParseInt(cols[7], '\n', 1);
      if start == None || length == None then Invalid
      else Ok(DeleteSlice(oid, offset, SliceKey(start.value, length.value)))
  }

  /** slice_parse_line. */
  function ParseSlice(line: Text, pathExists: int -> bool): Result<SliceRecord> {
    var cols := Columns(line);
    if |cols| < 6 || cols[3] == [] then Invalid
    else
      var op := cols[3][0];
      var oid, offset := ParseInt(cols[4], ' ', 1), ParseInt(cols[5], if op == 'D' then '\n' else ' ', 0);
      if oid == None || offset == None then Invalid
      else if op == 'w' || op == 'a' then ParseAdd(cols, op, oid.value, offset.value, pathExists)
      else if op == 'd' then ParseDelete(cols, oid.value, offset.value)
      else if op == 'D' then if |cols| != 6 then Invalid else Ok(DeleteBlock(oid.value, offset.value))
      else Invalid
  }

  lemma AddRoundTrip(fields: seq<Text>, r: SliceRecord, pathExists: int -> bool)
    requires r.AddSlice? && PrintableSlice(r) && |fields| == 13 && forall f | f in fields :: Solid(f)
    requires fields[6] == Dec(r.slice.offset) && fields[7] == Dec(r.slice.length) && fields[8] == Dec(r.space.path)
    requires fields[9] == Dec(r.space.trunk) && fields[10] == Dec(r.space.subdir)
    requires fields[11] == Dec(r.space.offset) && fields[12] == Dec(r.space.size)
    ensures ParseAdd(Columns(Join(fields)), r.op, r.oid, r.offset, pathExists) ==
            if r.slice.length >= 1 && pathExists(r.space.path) && r.space.trunk >= 1 && r.space.subdir >= 1 then Ok(r)
            else Invalid
  {
    ParseField(fields, 6, r.slice.offset, 0);
    ParseField(fields, 7, r.slice.length, 1);
    ParseField(fields, 8, r.space.path, 0);
    ParseField(fields, 9, r.space.trunk, 1);
    ParseField(fields, 10, r.space.subdir, 1);
    ParseField(fields, 11, r.space.offset, 0);
    ParseField(fields, 12, r.space.size, 0);
  }

  lemma DeleteRoundTrip(fields: seq<Text>, r: SliceRecord)
    requires r.DeleteSlice? && PrintableSlice(r) && |fields| == 8 && forall f | f in fields :: Solid(f)
    requires fields[6] == Dec(r.slice.offset) && fields[7] == Dec(r.slice.length)
    ensures ParseDelete(Columns(Join(fields)), r.oid, r.offset) == if r.slice.length >= 1 then Ok(r) else Invalid
  {
    ParseField(fields, 6, r.slice.offset, 0);
    ParseField(fields, 7, r.slice.length, 1);
  }

  /** What the common columns of a printed record parse to. */
  ghost predicate HeadParses(cols: seq<Text>, op: char, oid: nat, offset: nat) {
    |cols| >= 6 && cols[3] != [] && cols[3][0] == op &&
    ParseInt(cols[4], ' ', 1) == (if oid < 1 then None else Some(oid)) &&
    ParseInt(cols[5], if op == 'D' then '\n' else ' ', 0) == Some(offset)
  }

  lemma ParseByKind(cols: seq<Text>, line: Text, op: char, oid: nat, offset: nat, pathExists: int -> bool)
    requires cols == Columns(line) && HeadParses(cols, op, oid, offset)
    ensures ParseSlice(line, pathExists) ==
            if oid < 1 then Invalid
            else if op == 'w' || op == 'a' then ParseAdd(cols, op, oid, offset, pathExists)
            else if op == 'd' then ParseDelete(cols, oid, offset)
            else if op == 'D' && |cols| == 6 then Ok(DeleteBlock(oid, offset)) else Invalid
  {
  }

  /** A printed record is read back as it was, exactly when its numbers are in range and its path exists. */
  lemma SliceRoundTrip(time: nat, version: nat, source: char, r: SliceRecord, pathExists: int -> bool)
    requires PrintableSlice(r) && source != ' ' && source != '\n'
    ensures ParseSlice(PrintSlice(time, version, source, r), pathExists) ==
            if AcceptableSlice(r, pathExists) then Ok(r) else Invalid
  {
    var fields := SliceFields(time, version, source, r);
    var op := fields[3][0];
    FieldsSolid(time, version, source, r);
    HeadRoundTrip(fields, op, r.oid, r.offset);
    ParseByKind(Columns(Join(fields)), Join(fields), op, r.oid, r.offset, pathExists);
    TailRoundTrip(fields, r, time, version, source, pathExists);
  }

  /** The columns that depend on the kind of record. */
  lemma TailRoundTrip(fields: seq<Text>, r: SliceRecord, time: nat, version: nat, source: char, pathExists: int -> bool)
    requires PrintableSlice(r) && fields == SliceFields(time, version, source, r) && forall f | f in fields :: Solid(f)
    ensures r.AddSlice? ==>
              ParseAdd(Columns(Join(fields)), r.op, r.oid, r.offset, pathExists) ==
              if r.slice.length >= 1 && pathExists(r.space.path) && r.space.trunk >= 1 && r.space.subdir >= 1 then Ok(r)
              else Invalid
    ensures r.DeleteSlice? ==>
              ParseDelete(Columns(Join(fields)), r.oid, r.offset) == if r.slice.length >= 1 then Ok(r) else Invalid
  {
    match r {
      case AddSlice(_, _, _, _, _) => AddRoundTrip(fields, r, pathExists);
      case DeleteSlice(_, _, _) => DeleteRoundTrip(fields, r);
      case DeleteBlock(_, _) =>
    }
  }

  lemma FieldsSolid(time: nat, version: nat, source: char, r: SliceRecord)
    requires PrintableSlice(r) && source != ' ' && source != '\n'
    ensures forall f | f in SliceFields(time, version, source, r) :: Solid(f)
  {
    var fields := SliceFields(time, version, source, r);
    forall f | f in fields ensures Solid(f) {
      assert f == [source] || f == fields[3] || exists n: nat :: f == Dec(n);
    }
  }

  /** The columns that all records have. */
  lemma HeadRoundTrip(fields: seq<Text>, op: char, oid: nat, offset: nat)
    requires |fields| >= 6 && (forall f | f in fields :: Solid(f)) && fields[3] == [op]
    requires fields[4] == Dec(oid) && fields[5] == Dec(offset)
    requires op == 'D' <==> |fields| == 6
    ensures |Columns(Join(fields))| == |fields| && HeadParses(Columns(Join(fields)), op, oid, offset)
  {
    CharField(fields, 3, op);
    ParseField(fields, 4, oid, 1);
    ParseField(fields, 5, offset, 0);
  }
}
