/** The record format of the manifest (db/version_edit.cc, db/version_edit.h).

    Internal keys are byte strings here. */
module VersionEdits {
  import opened Keys
  import opened Coding

  datatype FileMeta = FileMeta(number: nat, size: nat, smallest: Bytes, largest: Bytes)

  datatype Field =
    | Comparator(name: Bytes)
    | LogNumber(value: nat)
    | PrevLogNumber(value: nat)
    | NextFile(value: nat)
    | LastSequence(value: nat)
    | CompactPointer(level: nat, key: Bytes)
    | DeletedFile(level: nat, number: nat)
    | NewFile(level: nat, file: FileMeta)

  // ------------------------------------------------------------------ one field

  function EncodeField(f: Field): seq<bv8> {
    match f
    case Comparator(name) => Varint(1) + LengthPrefixed(name)
    case LogNumber(n) => Varint(2) + Varint(n)
    case NextFile(n) => Varint(3) + Varint(n)
    case LastSequence(n) => Varint(4) + Varint(n)
    case CompactPointer(level, key) => Varint(5) + Varint(level) + LengthPrefixed(key)
    case DeletedFile(level, number) => Varint(6) + Varint(level) + Varint(number)
    case NewFile(level, g) =>
      Varint(7) + Varint(level) + Varint(g.number) + Varint(g.size)
      + LengthPrefixed(g.smallest) + LengthPrefixed(g.largest)
    case PrevLogNumber(n) => Varint(9) + Varint(n)
  }

  function GetInternalKey(input: seq<bv8>): Option<(Bytes, seq<bv8>)> {
    match GetLengthPrefixed(input)
    case None => None
    case Some(r) => if r.0 == [] then None else Some(r)
  }

  function GetLevel(input: seq<bv8>): Option<(nat, seq<bv8>)> {
    match GetVarint32(input)
    case None => None
    case Some(r) => if r.0 < NUM_LEVELS then Some(r) else None
  }

  /** What follows the tag of a field. */
  function DecodeBody(tag: nat, input: seq<bv8>): Option<(Field, seq<bv8>)> {
    if tag == 1 then
      match GetLengthPrefixed(input) case None => None case Some(r) => Some((Comparator(r.0), r.1))
    else if tag == 2 then
      match GetVarint64(input) case None => None case Some(r) => Some((LogNumber(r.0), r.1))
    else if tag == 9 then
      match GetVarint64(input) case None => None case Some(r) => Some((PrevLogNumber(r.0), r.1))
    else if tag == 3 then
      match GetVarint64(input) case None => None case Some(r) => Some((NextFile(r.0), r.1))
    else if tag == 4 then
      match GetVarint64(input) case None => None case Some(r) => Some((LastSequence(r.0), r.1))
    else if tag == 5 then DecodePointer(input)
    else if tag == 6 then DecodeDeleted(input)
    else if tag == 7 then DecodeNew(input)
    else None
  }

  function DecodePointer(input: seq<bv8>): Option<(Field, seq<bv8>)> {
    match GetLevel(input)
    case None => None
    case Some(l) => (match GetInternalKey(l.1) case None => None case Some(k) => Some((CompactPointer(l.0, k.0), k.1)))
  }

  function DecodeDeleted(input: seq<bv8>): Option<(Field, seq<bv8>)> {
    match GetLevel(input)
    case None => None
    case Some(l) => (match GetVarint64(l.1) case None => None case Some(n) => Some((DeletedFile(l.0, n.0), n.1)))
  }

  function DecodeNew(input: seq<bv8>): Option<(Field, seq<bv8>)> {
    match GetLevel(input)
    case None => None
    case Some(l) =>
      (match GetVarint64(l.1)
       case None => None
       case Some(n) =>
         (match GetVarint64(n.1)
          case None => None
          case Some(z) =>
            (match GetInternalKey(z.1)
             case None => None
             case Some(a) =>
               (match GetInternalKey(a.1)
                case None => None
                case Some(b) => Some((NewFile(l.0, FileMeta(n.0, z.0, a.0, b.0)), b.1))))))
  }

  /** A field that fits its encoding. */
  predicate FieldOk(f: Field) {
    match f
    case Comparator(name) => |name| < TWO_32
    case LogNumber(n) => n < TWO_64
    case PrevLogNumber(n) => n < TWO_64
    case NextFile(n) => n < TWO_64
    case LastSequence(n) => n < TWO_64
    case CompactPointer(level, key) => level < NUM_LEVELS && 0 < |key| < TWO_32
    case DeletedFile(level, number) => level < NUM_LEVELS && number < TWO_64
    case NewFile(level, g) =>
      level < NUM_LEVELS && g.number < TWO_64 && g.size < TWO_64 && 0 < |g.smallest| < TWO_32
      && 0 < |g.largest| < TWO_32
  }

  function TagOf(f: Field): nat {
    match f
    case Comparator(_) => 1
    case LogNumber(_) => 2
    case NextFile(_) => 3
    case LastSequence(_) => 4
    case CompactPointer(_, _) => 5
    case DeletedFile(_, _) => 6
    case NewFile(_, _) => 7
    case PrevLogNumber(_) => 9
  }

  function BodyOf(f: Field): seq<bv8> {
    match f
    case Comparator(name) => LengthPrefixed(name)
    case LogNumber(n) => Varint(n)
    case NextFile(n) => Varint(n)
    case LastSequence(n) => Varint(n)
    case CompactPointer(level, key) => Varint(level) + LengthPrefixed(key)
    case DeletedFile(level, number) => Varint(level) + Varint(number)
    case NewFile(level, g) =>
      Varint(level)
      + (Varint(g.number) + (Varint(g.size) + (LengthPrefixed(g.smallest) + LengthPrefixed(g.largest))))
    case PrevLogNumber(n) => Varint(n)
  }

  lemma TagAndBody(f: Field)
    ensures EncodeField(f) == Varint(TagOf(f)) + BodyOf(f)
  {
    hide Varint, LengthPrefixed;
    match f
    case CompactPointer(level, key) =>
    case DeletedFile(level, number) =>
    case NewFile(level, g) =>
      NewFileParts(Varint(7), Varint(level), Varint(g.number), Varint(g.size), LengthPrefixed(g.smallest),
                   LengthPrefixed(g.largest));
    case _ =>
  }

  lemma NewFileParts(a: seq<bv8>, b: seq<bv8>, c: seq<bv8>, d: seq<bv8>, e: seq<bv8>, f: seq<bv8>)
    ensures a + b + c + d + e + f == a + (b + (c + (d + (e + f))))
  {
  }

  lemma LevelRoundTrip(level: nat, rest: seq<bv8>)
    requires level < NUM_LEVELS
    ensures GetLevel(Varint(level) + rest) == Some((level, rest))
  {
    hide Varint, GetVarint32;
    Varint32RoundTrip(level, rest);
  }

  lemma KeyRoundTrip(key: Bytes, rest: seq<bv8>)
    requires 0 < |key| < TWO_32
    ensures GetInternalKey(LengthPrefixed(key) + rest) == Some((key, rest))
  {
    hide LengthPrefixed, GetLengthPrefixed;
    LengthPrefixedRoundTrip(key, rest);
  }

  lemma NewRoundTrip(level: nat, g: FileMeta, rest: seq<bv8>)
    requires FieldOk(NewFile(level, g))
    ensures DecodeNew(BodyOf(NewFile(level, g)) + rest) == Some((NewFile(level, g), rest))
  {
    hide Varint, LengthPrefixed, GetVarint64, GetLevel, GetInternalKey;
    var e := LengthPrefixed(g.largest) + rest;
    var d := LengthPrefixed(g.smallest) + e;
    var c := Varint(g.size) + d;
    var b := Varint(g.number) + c;
    NewFileRest(Varint(level), Varint(g.number), Varint(g.size), LengthPrefixed(g.smallest), LengthPrefixed(g.largest),
                rest);
    LevelRoundTrip(level, b);
    Varint64RoundTrip(g.number, c);
    Varint64RoundTrip(g.size, d);
    KeyRoundTrip(g.smallest, e);
    KeyRoundTrip(g.largest, rest);
  }

  lemma NewFileRest(a: seq<bv8>, b: seq<bv8>, c: seq<bv8>, d: seq<bv8>, e: seq<bv8>, rest: seq<bv8>)
    ensures a + (b + (c + (d + e))) + rest == a + (b + (c + (d + (e + rest))))
  {
  }

  lemma BodyRoundTrip(f: Field, rest: seq<bv8>)
    requires FieldOk(f)
    ensures DecodeBody(TagOf(f), BodyOf(f) + rest) == Some((f, rest))
  {
    hide Varint, LengthPrefixed, GetVarint64, GetLengthPrefixed, GetLevel, GetInternalKey, DecodeNew;
    match f
    case Comparator(name) => LengthPrefixedRoundTrip(name, rest);
    case LogNumber(n) => Varint64RoundTrip(n, rest);
    case PrevLogNumber(n) => Varint64RoundTrip(n, rest);
    case NextFile(n) => Varint64RoundTrip(n, rest);
    case LastSequence(n) => Varint64RoundTrip(n, rest);
    case CompactPointer(level, key) =>
      assert BodyOf(f) + rest == Varint(level) + (LengthPrefixed(key) + rest);
      LevelRoundTrip(level, LengthPrefixed(key) + rest);
      KeyRoundTrip(key, rest);
    case DeletedFile(level, number) =>
      assert BodyOf(f) + rest == Varint(level) + (Varint(number) + rest);
      LevelRoundTrip(level, Varint(number) + rest);
      Varint64RoundTrip(number, rest);
    case NewFile(level, g) => NewRoundTrip(level, g, rest);
  }

  /** A field, read back. */
  lemma FieldRoundTrip(f: Field, rest: seq<bv8>)
    requires FieldOk(f)
    ensures var input := EncodeField(f) + rest;
            GetVarint32(input) == Some((TagOf(f), BodyOf(f) + rest))
            && DecodeBody(TagOf(f), BodyOf(f) + rest) == Some((f, rest))
  {
    hide Varint, BodyOf, DecodeBody, EncodeField, GetVarint32;
    TagAndBody(f);
    assert EncodeField(f) + rest == Varint(TagOf(f)) + (BodyOf(f) + rest);
    Varint32RoundTrip(TagOf(f), BodyOf(f) + rest);
    BodyRoundTrip(f, rest);
  }

  // ------------------------------------------------------------------ the edit

  datatype EditData = EditData(
    comparator: Option<Bytes>, logNumber: Option<nat>, prevLogNumber: Option<nat>,
    nextFile: Option<nat>, lastSequence: Option<nat>,
    compactPointers: seq<(nat, Bytes)>, deletedFiles: set<(nat, nat)>, newFiles: seq<(nat, FileMeta)>)

  /** What one field does to an edit. */
  function Apply(d: EditData, f: Field): EditData {
    match f
    case Comparator(name) => d.(comparator := Some(name))
    case LogNumber(n) => d.(logNumber := Some(n))
    case PrevLogNumber(n) => d.(prevLogNumber := Some(n))
    case NextFile(n) => d.(nextFile := Some(n))
    case LastSequence(n) => d.(lastSequence := Some(n))
    case CompactPointer(level, key) => d.(compactPointers := d.compactPointers + [(level, key)])
    case DeletedFile(level, number) => d.(deletedFiles := d.deletedFiles + {(level, number)})
    case NewFile(level, g) => d.(newFiles := d.newFiles + [(level, g)])
  }

  function ApplyAll(d: EditData, fs: seq<Field>): EditData {
    if fs == [] then d else Apply(ApplyAll(d, fs[..|fs| - 1]), fs[|fs| - 1])
  }

  function EncodeFields(fs: seq<Field>): seq<bv8> {
    if fs == [] then [] else EncodeFields(fs[..|fs| - 1]) + EncodeField(fs[|fs| - 1])
  }

  ghost predicate AllOk(fs: seq<Field>) {
    forall i :: 0 <= i < |fs| ==> FieldOk(fs[i])
  }

  /** The edit fits its encoding. */
  ghost predicate EditOk(d: EditData) {
    && (d.comparator.Some? ==> |d.comparator.value| < TWO_32)
    && (d.logNumber.Some? ==> d.logNumber.value < TWO_64) && (d.prevLogNumber.Some? ==> d.prevLogNumber.value < TWO_64)
    && (d.nextFile.Some? ==> d.nextFile.value < TWO_64) && (d.lastSequence.Some? ==> d.lastSequence.value < TWO_64)
    && (forall i :: 0 <= i < |d.compactPointers| ==>
          FieldOk(CompactPointer(d.compactPointers[i].0, d.compactPointers[i].1)))
    && (forall x :: x in d.deletedFiles ==> FieldOk(DeletedFile(x.0, x.1)))
    && (forall i :: 0 <= i < |d.newFiles| ==> FieldOk(NewFile(d.newFiles[i].0, d.newFiles[i].1)))
  }

  /** Clear: everything but the compaction pointers. */
  function Cleared(d: EditData): EditData {
    EditData(None, None, None, None, None, d.compactPointers, {}, [])
  }

  lemma EncodeFieldsNext(fs: seq<Field>)
    requires fs != []
    ensures EncodeFields(fs) == EncodeField(fs[0]) + EncodeFields(fs[1..])
  {
    hide EncodeField;
    if |fs| == 1 {
      assert fs[..0] == [] && fs[1..] == [];
      assert EncodeFields(fs[..0]) == [] && EncodeFields(fs[1..]) == [];
    } else {
      var front := fs[..|fs| - 1];
      EncodeFieldsNext(front);
      assert fs[1..][..|fs| - 2] == front[1..];
    }
  }

  const EMPTY := EditData(None, None, None, None, None, [], {}, [])

  /** `bytes` is the encoding of `fs`, which give `done`. */
  ghost predicate Written(bytes: seq<bv8>, fs: seq<Field>, done: EditData) {
    bytes == EncodeFields(fs) && ApplyAll(EMPTY, fs) == done
  }

  method EmitMore(bytes: seq<bv8>, ghost fs: seq<Field>, ghost done: EditData, f: Field)
    returns (bytes': seq<bv8>, ghost fs': seq<Field>, ghost done': EditData)
    requires Written(bytes, fs, done)
    ensures Written(bytes', fs', done') && fs' == fs + [f] && done' == Apply(done, f)
    ensures bytes' == bytes + EncodeField(f)
    ensures AllOk(fs) && FieldOk(f) ==> AllOk(fs')
  {
    hide EncodeField;
    bytes' := bytes + EncodeField(f);
    fs' := fs + [f];
    done' := Apply(done, f);
    assert fs'[..|fs|] == fs;
  }

  lemma NothingWritten()
    ensures Written([], [], EMPTY) && AllOk([])
  {
  }

  lemma WrittenMeans(bytes: seq<bv8>, fs: seq<Field>, done: EditData)
    requires Written(bytes, fs, done)
    ensures bytes == EncodeFields(fs) && ApplyAll(EMPTY, fs) == done
  {
  }

  // ------------------------------------------------------------------ reading the fields back

  ghost predicate Encodes(src: seq<bv8>, fs: seq<Field>) {
    src == EncodeFields(fs) && AllOk(fs)
  }

  lemma BodyShrinks(tag: nat, input: seq<bv8>)
    ensures var r := DecodeBody(tag, input); r.Some? ==> |r.value.1| <= |input|
  {
    hide GetVarint, GetLengthPrefixed, DecodeNew;
    GetVarintShrinks(input, 10);
    GetVarintShrinks(input, 5);
    GetLengthPrefixedShrinks(input);
    var l := GetLevel(input);
    if l.Some? {
      GetVarintShrinks(l.value.1, 10);
      GetLengthPrefixedShrinks(l.value.1);
    }
    NewShrinks(input);
  }

  lemma NewShrinks(input: seq<bv8>)
    ensures var r := DecodeNew(input); r.Some? ==> |r.value.1| <= |input|
  {
    hide GetVarint, GetLengthPrefixed;
    GetVarintShrinks(input, 5);
    var l := GetLevel(input);
    if l.Some? {
      GetVarintShrinks(l.value.1, 10);
      var n := GetVarint64(l.value.1);
      if n.Some? {
        GetVarintShrinks(n.value.1, 10);
        var z := GetVarint64(n.value.1);
        if z.Some? {
          GetLengthPrefixedShrinks(z.value.1);
          var a := GetInternalKey(z.value.1);
          if a.Some? {
            GetLengthPrefixedShrinks(a.value.1);
          }
        }
      }
    }
  }

  lemma FieldShrinks(input: seq<bv8>)
    ensures var tag := GetVarint32(input);
            tag.Some? ==> var r := DecodeBody(tag.value.0, tag.value.1); r.Some? ==> |r.value.1| < |input|
  {
    hide GetVarint, DecodeBody;
    GetVarintShrinks(input, 5);
    var tag := GetVarint32(input);
    if tag.Some? {
      BodyShrinks(tag.value.0, tag.value.1);
    }
  }

  /** The fields that are read from the input one after the other, and whether they use it up. */
  function Fields(input: seq<bv8>): (seq<Field>, bool)
    decreases |input|
  {
    var tag := GetVarint32(input);
    if tag.None? then ([], input == [])
    else
      var r := DecodeBody(tag.value.0, tag.value.1);
      if r.None? then ([], false)
      else
        FieldShrinks(input);
        var rest := Fields(r.value.1);
        ([r.value.0] + rest.0, rest.1)
  }

  /** Fields that were encoded are the fields that are read. */
  lemma {:induction false} EncodedFields(src: seq<bv8>, fs: seq<Field>)
    requires Encodes(src, fs)
    ensures Fields(src) == (fs, true)
    decreases |fs|
  {
    hide EncodeField, DecodeBody, BodyOf, FieldOk;
    if fs == [] {
      assert GetVarint32(src).None?;
    } else {
      hide GetVarint32;
      EncodeFieldsNext(fs);
      FieldRoundTrip(fs[0], EncodeFields(fs[1..]));
      EncodedFields(EncodeFields(fs[1..]), fs[1..]);
      assert [fs[0]] + fs[1..] == fs;
    }
  }

  // ------------------------------------------------------------------ the fields of an edit in order

  predicate PairLess(a: (nat, nat), b: (nat, nat)) {
    a.0 < b.0 || (a.0 == b.0 && a.1 < b.1)
  }

  ghost predicate Ascending(pairs: seq<(nat, nat)>) {
    forall i, j :: 0 <= i < j < |pairs| ==>
      pairs[i].0 < pairs[j].0 || (pairs[i].0 == pairs[j].0 && pairs[i].1 < pairs[j].1)
  }

  lemma AscendingMore(pairs: seq<(nat, nat)>, x: (nat, nat))
    requires Ascending(pairs) && forall y :: y in pairs ==> PairLess(y, x)
    ensures Ascending(pairs + [x])
  {
    var all := pairs + [x];
    forall i, j | 0 <= i < j < |all|
      ensures all[i].0 < all[j].0 || (all[i].0 == all[j].0 && all[i].1 < all[j].1)
    {
      if j == |pairs| {
        assert PairLess(pairs[i], x);
      }
    }
  }

  method LeastPair(s: set<(nat, nat)>) returns (x: (nat, nat))
    requires s != {}
    ensures x in s && forall y :: y in s && y != x ==> PairLess(x, y)
  {
    x :| x in s;
    var left := s - {x};
    while left != {}
      invariant x in s && left <= s && forall y :: y in s && y !in left && y != x ==> PairLess(x, y)
      decreases left
    {
      var y :| y in left;
      left := left - {y};
      if PairLess(y, x) {
        x := y;
      }
    }
  }

  function ComparatorOf(d: EditData): Field {
    Comparator(if d.comparator.Some? then d.comparator.value else [])
  }

  function LogNumberOf(d: EditData): Field {
    LogNumber(if d.logNumber.Some? then d.logNumber.value else 0)
  }

  function PrevLogNumberOf(d: EditData): Field {
    PrevLogNumber(if d.prevLogNumber.Some? then d.prevLogNumber.value else 0)
  }

  function NextFileOf(d: EditData): Field {
    NextFile(if d.nextFile.Some? then d.nextFile.value else 0)
  }

  function LastSequenceOf(d: EditData): Field {
    LastSequence(if d.lastSequence.Some? then d.lastSequence.value else 0)
  }

  function If(given: bool, f: Field): seq<Field> {
    if given then [f] else []
  }

  function ApplyIf(d: EditData, given: bool, f: Field): EditData {
    if given then Apply(d, f) else d
  }

  /** The fields that are set, in the order of their tags but with the previous log number after the log number. */
  function ScalarFields(d: EditData): seq<Field> {
    If(d.comparator.Some?, ComparatorOf(d)) + If(d.logNumber.Some?, LogNumberOf(d))
    + If(d.prevLogNumber.Some?, PrevLogNumberOf(d))
    + If(d.nextFile.Some?, NextFileOf(d)) + If(d.lastSequence.Some?, LastSequenceOf(d))
  }

  ghost predicate ScalarsOk(d: EditData) {
    && (d.comparator.Some? ==> FieldOk(ComparatorOf(d))) && (d.logNumber.Some? ==> FieldOk(LogNumberOf(d)))
    && (d.prevLogNumber.Some? ==> FieldOk(PrevLogNumberOf(d))) && (d.nextFile.Some? ==> FieldOk(NextFileOf(d)))
    && (d.lastSequence.Some? ==> FieldOk(LastSequenceOf(d)))
  }

  lemma ScalarsAreOk(d: EditData)
    ensures EditOk(d) ==> ScalarsOk(d)
  {
  }

  lemma ScalarsApply(d: EditData)
    ensures var a := ApplyIf(EMPTY, d.comparator.Some?, ComparatorOf(d));
            var b := ApplyIf(a, d.logNumber.Some?, LogNumberOf(d));
            var c := ApplyIf(b, d.prevLogNumber.Some?, PrevLogNumberOf(d));
            var e := ApplyIf(c, d.nextFile.Some?, NextFileOf(d));
            ApplyIf(e, d.lastSequence.Some?, LastSequenceOf(d)) ==
              d.(compactPointers := [], deletedFiles := {}, newFiles := [])
  {
  }

  method EmitIf(bytes: seq<bv8>, ghost fs: seq<Field>, ghost done: EditData, given: bool, f: Field)
    returns (bytes': seq<bv8>, ghost fs': seq<Field>, ghost done': EditData)
    requires Written(bytes, fs, done)
    ensures Written(bytes', fs', done') && fs' == fs + If(given, f) && done' == ApplyIf(done, given, f)
    ensures AllOk(fs) && (given ==> FieldOk(f)) ==> AllOk(fs')
  {
    hide AllOk, EncodeField, Written, FieldOk;
    if given {
      bytes', fs', done' := EmitMore(bytes, fs, done, f);
    } else {
      bytes', fs', done' := bytes, fs, done;
    }
  }

  function PointerFields(pointers: seq<(nat, Bytes)>): seq<Field> {
    seq(|pointers|, i requires 0 <= i < |pointers| => CompactPointer(pointers[i].0, pointers[i].1))
  }

  function DeletedFields(pairs: seq<(nat, nat)>): seq<Field> {
    seq(|pairs|, i requires 0 <= i < |pairs| => DeletedFile(pairs[i].0, pairs[i].1))
  }

  function NewFields(files: seq<(nat, FileMeta)>): seq<Field> {
    seq(|files|, i requires 0 <= i < |files| => NewFile(files[i].0, files[i].1))
  }

  class VersionEdit {
    var data: EditData

    constructor ()
      ensures data == EMPTY
    {
      data := EMPTY;
    }

    /** The fields that are set, then the pointers, the deleted files in ascending order, and the new files. */
    method EncodeTo() returns (bytes: seq<bv8>, ghost fs: seq<Field>, ghost deleted: seq<(nat, nat)>)
      ensures bytes == EncodeFields(fs)
      ensures EditOk(data) ==> AllOk(fs)
      ensures ApplyAll(EMPTY, fs) == data
      ensures fs == ScalarFields(data) + PointerFields(data.compactPointers) + DeletedFields(deleted)
              + NewFields(data.newFiles)
      ensures Ascending(deleted) && (forall x :: x in deleted <==> x in data.deletedFiles)
      ensures exists gs :: bytes == EncodeFields(gs) && ApplyAll(EMPTY, gs) == data
    {
      hide Written, AllOk, EditOk, ScalarFields, PointerFields, DeletedFields, NewFields, Ascending;
      ghost var done;
      bytes, fs, done := EncodeScalars();
      bytes, fs, done := EncodePointers(bytes, fs, done);
      bytes, fs, done, deleted := EncodeDeleted(bytes, fs, done);
      bytes, fs, done := EncodeNew(bytes, fs, done);
      WrittenMeans(bytes, fs, done);
    }

    method EncodeScalars() returns (bytes: seq<bv8>, ghost fs: seq<Field>, ghost done: EditData)
      ensures Written(bytes, fs, done) && (EditOk(data) ==> AllOk(fs)) && fs == ScalarFields(data)
      ensures done == data.(compactPointers := [], deletedFiles := {}, newFiles := [])
    {
      hide AllOk, EncodeField, Written, FieldOk;
      ScalarsAreOk(data);
      hide EditOk, ApplyIf, If, ComparatorOf, LogNumberOf, PrevLogNumberOf, NextFileOf, LastSequenceOf, EMPTY;
      bytes, fs, done := [], [], EMPTY;
      NothingWritten();
      bytes, fs, done := EmitIf(bytes, fs, done, data.comparator.Some?, ComparatorOf(data));
      bytes, fs, done := EmitIf(bytes, fs, done, data.logNumber.Some?, LogNumberOf(data));
      bytes, fs, done := EmitIf(bytes, fs, done, data.prevLogNumber.Some?, PrevLogNumberOf(data));
      bytes, fs, done := EmitIf(bytes, fs, done, data.nextFile.Some?, NextFileOf(data));
      bytes, fs, done := EmitIf(bytes, fs, done, data.lastSequence.Some?, LastSequenceOf(data));
      assert [] + If(data.comparator.Some?, ComparatorOf(data)) == If(data.comparator.Some?, ComparatorOf(data));
      ScalarsApply(data);
    }

    method EncodePointers(before: seq<bv8>, ghost given: seq<Field>, ghost state: EditData)
      returns (bytes: seq<bv8>, ghost fs: seq<Field>, ghost done: EditData)
      requires Written(before, given, state) && (EditOk(data) ==> AllOk(given)) && state.compactPointers == []
      ensures Written(bytes, fs, done) && (EditOk(data) ==> AllOk(fs))
      ensures done == state.(compactPointers := data.compactPointers)
      ensures fs == given + PointerFields(data.compactPointers)
    {
      hide EncodeField, Written;
      bytes, fs, done := before, given, state;
      for i := 0 to |data.compactPointers|
        invariant Written(bytes, fs, done) && (EditOk(data) ==> AllOk(fs))
        invariant done == state.(compactPointers := data.compactPointers[..i])
        invariant fs == given + PointerFields(data.compactPointers[..i])
      {
        bytes, fs, done := EmitMore(bytes, fs, done,
                                    CompactPointer(data.compactPointers[i].0, data.compactPointers[i].1));
      }
      assert data.compactPointers[..|data.compactPointers|] == data.compactPointers;
    }

    method EncodeDeleted(before: seq<bv8>, ghost given: seq<Field>, ghost state: EditData)
      returns (bytes: seq<bv8>, ghost fs: seq<Field>, ghost done: EditData, ghost deleted: seq<(nat, nat)>)
      requires Written(before, given, state) && (EditOk(data) ==> AllOk(given)) && state.deletedFiles == {}
      ensures Written(bytes, fs, done) && (EditOk(data) ==> AllOk(fs))
      ensures done == state.(deletedFiles := data.deletedFiles)
      ensures fs == given + DeletedFields(deleted) && Ascending(deleted)
      ensures (forall x :: x in deleted <==> x in data.deletedFiles)
    {
      hide EncodeField, Written;
      bytes, fs, done, deleted := before, given, state, [];
      var left := data.deletedFiles;
      while left != {}
        invariant Written(bytes, fs, done) && (EditOk(data) ==> AllOk(fs))
        invariant left <= data.deletedFiles && done == state.(deletedFiles := data.deletedFiles - left)
        invariant fs == given + DeletedFields(deleted) && Ascending(deleted)
        invariant (forall x :: x in deleted <==> x in data.deletedFiles - left)
        invariant forall x, y :: x in deleted && y in left ==> PairLess(x, y)
        decreases left
      {
        var x := LeastPair(left);
        bytes, fs, done := EmitMore(bytes, fs, done, DeletedFile(x.0, x.1));
        AscendingMore(deleted, x);
        deleted := deleted + [x];
        left := left - {x};
      }
    }

    method EncodeNew(before: seq<bv8>, ghost given: seq<Field>, ghost state: EditData)
      returns (bytes: seq<bv8>, ghost fs: seq<Field>, ghost done: EditData)
      requires Written(before, given, state) && (EditOk(data) ==> AllOk(given)) && state.newFiles == []
      ensures Written(bytes, fs, done) && (EditOk(data) ==> AllOk(fs)) && done == state.(newFiles := data.newFiles)
      ensures fs == given + NewFields(data.newFiles)
    {
      hide EncodeField, Written;
      bytes, fs, done := before, given, state;
      for i := 0 to |data.newFiles|
        invariant Written(bytes, fs, done) && (EditOk(data) ==> AllOk(fs))
        invariant done == state.(newFiles := data.newFiles[..i])
        invariant fs == given + NewFields(data.newFiles[..i])
      {
        bytes, fs, done := EmitMore(bytes, fs, done, NewFile(data.newFiles[i].0, data.newFiles[i].1));
      }
      assert data.newFiles[..|data.newFiles|] == data.newFiles;
    }

    /** Reads fields until the input is used up or is wrong; what was read before that has been applied. */
    method DecodeFrom(src: seq<bv8>) returns (status: Status)
      modifies this
      ensures data == ApplyAll(Cleared(old(data)), Fields(src).0) && (status == Ok <==> Fields(src).1)
      ensures forall fs :: Encodes(src, fs) ==> status == Ok && data == ApplyAll(Cleared(old(data)), fs)
    {
      hide DecodeBody, GetVarint32, Apply, Encodes;
      data := Cleared(data);
      var input := src;
      ghost var start, all, done := data, Fields(src), [];
      assert [] + all.0 == all.0;
      while true
        invariant all == (done + Fields(input).0, Fields(input).1) && data == ApplyAll(start, done)
        decreases |input|
      {
        var tag := GetVarint32(input);
        if tag.None? {
          break;
        }
        var r := DecodeBody(tag.value.0, tag.value.1);
        if r.None? {
          assert done + [] == done;
          NotEncoded(src);
          return Corruption;
        }
        FieldShrinks(input);
        ghost var f := r.value.0;
        assert done + ([f] + Fields(r.value.1).0) == (done + [f]) + Fields(r.value.1).0;
        assert (done + [f])[..|done|] == done;
        data := Apply(data, r.value.0);
        input := r.value.1;
        done := done + [f];
      }
      assert done + [] == done;
      status := if input == [] then Ok else Corruption;
      forall fs | Encodes(src, fs) ensures Fields(src) == (fs, true) {
        EncodedFields(src, fs);
      }
    }
  }

  lemma NotEncoded(src: seq<bv8>)
    ensures !Fields(src).1 ==> forall fs :: !Encodes(src, fs)
  {
    hide Fields;
    forall fs ensures Encodes(src, fs) ==> Fields(src).1 {
      if Encodes(src, fs) {
        EncodedFields(src, fs);
      }
    }
  }

  // ------------------------------------------------------------------ round trip

  lemma {:induction false} PointersStay(d: EditData, fs: seq<Field>)
    ensures var newly := ApplyAll(EMPTY, fs);
            ApplyAll(Cleared(d), fs) == newly.(compactPointers := d.compactPointers + newly.compactPointers)
  {
    if fs != [] {
      PointersStay(d, fs[..|fs| - 1]);
      var f := fs[|fs| - 1];
      var newly := ApplyAll(EMPTY, fs[..|fs| - 1]);
      if f.CompactPointer? {
        assert d.compactPointers + newly.compactPointers + [(f.level, f.key)] == d.compactPointers
               + (newly.compactPointers + [(f.level, f.key)]);
      }
    }
  }

  /** Clear leaves the compaction pointers: an edit read into one that is not new is the edit that was written
      exactly when there were none. */
  lemma DecodedIntoUsed(d: EditData, fs: seq<Field>)
    ensures ApplyAll(Cleared(d), fs) == ApplyAll(EMPTY, fs) <==> d.compactPointers == []
  {
    PointersStay(d, fs);
    var newly := ApplyAll(EMPTY, fs);
    assert |d.compactPointers + newly.compactPointers| == |newly.compactPointers| <==> d.compactPointers == [];
    assert [] + newly.compactPointers == newly.compactPointers;
  }

  /** What is written is read back. */
  method RoundTrip(e: VersionEdit, t: VersionEdit) returns (status: Status)
    requires EditOk(e.data) && t != e
    modifies t
    ensures status == Ok
    ensures t.data == e.data.(compactPointers := old(t.data.compactPointers) + e.data.compactPointers)
    ensures t.data == e.data <==> old(t.data.compactPointers) == []
  {
    hide EditOk, AllOk, EncodeFields, ApplyAll;
    var bytes, fs, _ := e.EncodeTo();
    assert Encodes(bytes, fs);
    PointersStay(t.data, fs);
    DecodedIntoUsed(t.data, fs);
    status := t.DecodeFrom(bytes);
  }
}
