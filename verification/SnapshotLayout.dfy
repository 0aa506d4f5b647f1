/** The snapshot file as fields at fixed places, and what loads from it. */
module SnapshotLayout {
  import opened Bytes
  import opened BinaryIO
  import opened Records
  import opened Recovery
  import opened JournalFormat
  import opened SnapshotFormat
  import opened Layouts

  /** 8 bytes magic, 4 format, 8 sequence, 8 number of roots, 8 size of the index, 4 checksum of the
      index, 4 checksum of all before. */
  predicate HeaderAt(c: Checks, file: Blob, sequence: nat, count: nat, indexSize: nat) {
    && |file| >= 44
    && Field(file, 0, 8, 0x3250_414e_5350_4f) && Field(file, 8, 4, 2) && Field(file, 12, 8, sequence)
    && Field(file, 20, 8, count) && Field(file, 28, 8, indexSize)
    && (c.on ==> Field(file, 40, 4, c.digest(file[..40])))
  }

  /** Length and bytes of a name, and a version. */
  predicate NameAt(s: Blob, o: nat, name: Blob, version: nat) {
    Field(s, o, 8, |name|) && Part(s, o + 8, name) && Field(s, o + 8 + |name|, 8, version)
  }

  /** Length and bytes of a type tag; then the payload's place behind the index, its size and its checksum. */
  predicate TagAt(s: Blob, o: nat, tag: Blob, relative: nat, size: nat, checksum: nat) {
    var t := |tag|;
    && Field(s, o, 8, t) && Part(s, o + 8, tag)
    && Field(s, o + 8 + t, 8, relative) && Field(s, o + 16 + t, 8, size) && Field(s, o + 24 + t, 4, checksum)
  }

  predicate EntryAt(s: Blob, o: nat, e: Entry) {
    NameAt(s, o, e.name, e.version) && TagAt(s, o + 16 + |e.name|, e.tag, e.relative, e.size, e.checksum)
  }

  function EntrySize(e: Entry): nat {
    44 + |e.name| + |e.tag|
  }

  /** Where entries lie in an index. */
  type Places = (Blob, nat, Entry) -> bool

  /** The entries follow one another and fill the index from o on. */
  predicate Filled(at: Places, s: Blob, o: nat, es: seq<Entry>)
    decreases |es|
  {
    if es == [] then o == |s| else at(s, o, es[0]) && Filled(at, s, o + EntrySize(es[0]), es[1..])
  }

  function EntryPlaces(): Places {
    (s: Blob, o: nat, e: Entry) => EntryAt(s, o, e)
  }

  predicate OneName(es: seq<Entry>) {
    forall i, j | 0 <= i < j < |es| :: es[i].name != es[j].name
  }

  /** Every payload lies within the file. */
  predicate Inside(es: seq<Entry>, base: nat, fileSize: nat) {
    forall i | 0 <= i < |es| :: base + es[i].relative + es[i].size <= fileSize
  }

  function RecordOf(e: Entry, base: nat): RootRecord {
    RootRecord(e.version, e.tag, Loc(SnapshotFile, base + e.relative, e.size, e.checksum))
  }

  /** A snapshot with these entries, at most ten million. */
  predicate SnapshotAt(c: Checks, file: Blob, sequence: nat, indexSize: nat, es: seq<Entry>) {
    && HeaderAt(c, file, sequence, |es|, indexSize) && |es| <= 10_000_000 && 44 + indexSize <= |file|
    && (c.on ==> Field(file, 36, 4, c.digest(file[44..44 + indexSize])))
    && Filled(EntryPlaces(), file[44..44 + indexSize], 0, es) && OneName(es) && Inside(es, 44 + indexSize, |file|)
  }

  /** The roots are those of the entries. */
  predicate RootsAre(roots: Index, es: seq<Entry>, base: nat) {
    && (forall i | 0 <= i < |es| :: es[i].name in roots && roots[es[i].name] == RecordOf(es[i], base))
    && (forall name | name in roots :: exists i :: 0 <= i < |es| && es[i].name == name)
  }

  // ------------------------------------------------------------------
  // The header
  // ------------------------------------------------------------------

  lemma {:induction false} CountsRead(s: Blob, o: nat)
    requires o + 24 <= |s|
    ensures ParseCounts(s[o..]) == Ok(((FromLe(s[o..o + 8]), FromLe(s[o + 8..o + 16]), FromLe(s[o + 16..o + 24])), s[o + 24..]))
  {
    FieldRead(s, o, 8);
    FieldRead(s, o + 8, 8);
    FieldRead(s, o + 16, 8);
  }

  lemma {:induction false} SumsRead(s: Blob, o: nat)
    requires o + 8 == |s|
    ensures ParseSums(s[o..]) == Ok((FromLe(s[o..o + 4]), FromLe(s[o + 4..o + 8])))
  {
    FieldRead(s, o, 4);
    FieldRead(s, o + 4, 4);
  }

  lemma {:induction false} HeaderReads(c: Checks, h: Blob)
    requires |h| == 44
    ensures ParseHeader(c, h)
            == if FromLe(h[0..8]) != SNAPSHOT_MAGIC then Err(Corruption(BadMagic))
               else if FromLe(h[8..12]) != SNAPSHOT_FORMAT then Err(Corruption(BadFormat))
               else if c.on && FromLe(h[40..44]) != c.digest(h[..40]) then Err(Corruption(ChecksumMismatch))
               else Ok(Header(FromLe(h[12..20]), FromLe(h[20..28]), FromLe(h[28..36]), FromLe(h[36..40])))
  {
    assert h[0..] == h;
    FieldRead(h, 0, 8);
    FieldRead(h, 8, 4);
    CountsRead(h, 12);
    SumsRead(h, 36);
  }

  lemma {:induction false} HeaderMeans(c: Checks, file: Blob, h: Header)
    requires |file| >= 44
    ensures ParseHeader(c, file[..44]) == Ok(h)
            <==> HeaderAt(c, file, h.sequence, h.count, h.indexSize) && Field(file, 36, 4, h.indexSum)
  {
    var f := file[..44];
    HeaderReads(c, f);
    assert f[0..8] == file[0..8] && f[8..12] == file[8..12] && f[12..20] == file[12..20] && f[20..28] == file[20..28];
    assert f[28..36] == file[28..36] && f[36..40] == file[36..40] && f[40..44] == file[40..44] && f[..40] == file[..40];
  }

  // ------------------------------------------------------------------
  // The entries
  // ------------------------------------------------------------------

  lemma {:induction false} PlaceAt(s: Blob, o: nat)
    requires o <= |s|
    ensures ParsePlace(s[o..]).Ok? <==> o + 20 <= |s|
    ensures o + 20 <= |s| ==>
              ParsePlace(s[o..]) == Ok(((FromLe(s[o..o + 8]), FromLe(s[o + 8..o + 16]), FromLe(s[o + 16..o + 20])), s[o + 20..]))
  {
    FieldRead(s, o, 8);
    if o + 8 <= |s| {
      FieldRead(s, o + 8, 8);
    }
    if o + 16 <= |s| {
      FieldRead(s, o + 16, 4);
    }
  }

  lemma {:induction false} NamingFound(s: Blob, o: nat)
    requires o <= |s| && ParseNaming(s[o..]).Ok?
    ensures var ((name, version), rest) := ParseNaming(s[o..]).value;
            NameAt(s, o, name, version) && o + 16 + |name| <= |s| && rest == s[o + 16 + |name|..]
  {
    StringAt(s, o);
    FieldRead(s, o + 8 + |ReadString(s[o..]).value.0|, 8);
  }

  lemma {:induction false} NamingReadAt(s: Blob, o: nat, name: Blob, version: nat)
    requires NameAt(s, o, name, version)
    ensures o + 16 + |name| <= |s| && ParseNaming(s[o..]) == Ok(((name, version), s[o + 16 + |name|..]))
  {
    StringAt(s, o);
    PartUnique(s, o + 8, name, ReadString(s[o..]).value.0);
    FieldRead(s, o + 8 + |name|, 8);
  }

  function ParseTag(s: Blob): Result<((Blob, (nat, nat, nat)), Blob)> {
    var (tag, s2) :- ReadString(s);
    var (place, s3) :- ParsePlace(s2);
    Ok(((tag, place), s3))
  }

  lemma {:induction false} TagFound(s: Blob, o: nat)
    requires o <= |s| && ParseTag(s[o..]).Ok?
    ensures var ((tag, place), rest) := ParseTag(s[o..]).value;
            TagAt(s, o, tag, place.0, place.1, place.2) && o + 28 + |tag| <= |s| && rest == s[o + 28 + |tag|..]
  {
    StringAt(s, o);
    PlaceAt(s, o + 8 + |ReadString(s[o..]).value.0|);
  }

  lemma {:induction false} TagReadAt(s: Blob, o: nat, tag: Blob, relative: nat, size: nat, checksum: nat)
    requires TagAt(s, o, tag, relative, size, checksum)
    ensures o + 28 + |tag| <= |s| && ParseTag(s[o..]) == Ok(((tag, (relative, size, checksum)), s[o + 28 + |tag|..]))
  {
    StringAt(s, o);
    PartUnique(s, o + 8, tag, ReadString(s[o..]).value.0);
    PlaceAt(s, o + 8 + |tag|);
  }

  lemma {:induction false} EntrySplits(s: Blob)
    ensures ParseEntry(s).Ok? <==> ParseNaming(s).Ok? && ParseTag(ParseNaming(s).value.1).Ok?
    ensures ParseEntry(s).Ok? ==>
              var ((name, version), s1) := ParseNaming(s).value;
              var ((tag, place), s2) := ParseTag(s1).value;
              ParseEntry(s) == Ok((Entry(name, version, tag, place.0, place.1, place.2), s2))
  {
  }

  lemma {:induction false} EntryFound(s: Blob, o: nat)
    requires o <= |s| && ParseEntry(s[o..]).Ok?
    ensures var (e, rest) := ParseEntry(s[o..]).value;
            EntryAt(s, o, e) && o + EntrySize(e) <= |s| && rest == s[o + EntrySize(e)..]
  {
    EntrySplits(s[o..]);
    NamingFound(s, o);
    TagFound(s, o + 16 + |ParseNaming(s[o..]).value.0.0|);
  }

  lemma {:induction false} EntryReadAt(s: Blob, o: nat, e: Entry)
    requires EntryAt(s, o, e)
    ensures o + EntrySize(e) <= |s| && ParseEntry(s[o..]) == Ok((e, s[o + EntrySize(e)..]))
  {
    var middle := o + 16 + |e.name|;
    NamingReadAt(s, o, e.name, e.version);
    TagReadAt(s, middle, e.tag, e.relative, e.size, e.checksum);
    EntryJoins(s[o..], e, s[middle..], s[middle + 28 + |e.tag|..]);
  }

  lemma {:induction false} EntryJoins(s: Blob, e: Entry, middle: Blob, rest: Blob)
    requires ParseNaming(s) == Ok(((e.name, e.version), middle))
    requires ParseTag(middle) == Ok(((e.tag, (e.relative, e.size, e.checksum)), rest))
    ensures ParseEntry(s) == Ok((e, rest))
  {
  }

  // ------------------------------------------------------------------
  // The index
  // ------------------------------------------------------------------

  /** The roots that the entries add to those before them. */
  function Added(es: seq<Entry>, base: nat, roots: Index): Index
    decreases |es|
  {
    if es == [] then roots else Added(es[1..], base, roots[es[0].name := RecordOf(es[0], base)])
  }

  predicate Fresh(es: seq<Entry>, roots: Index) {
    forall i | 0 <= i < |es| :: es[i].name !in roots
  }

  predicate Addable(es: seq<Entry>, base: nat, fileSize: nat, roots: Index) {
    OneName(es) && Inside(es, base, fileSize) && Fresh(es, roots)
  }

  lemma {:induction false} AddableNext(es: seq<Entry>, base: nat, fileSize: nat, roots: Index)
    requires es != [] && base <= fileSize
    ensures Addable(es, base, fileSize, roots)
            <==> AddEntry(es[0], base, fileSize, roots) == Ok(roots[es[0].name := RecordOf(es[0], base)])
                 && Addable(es[1..], base, fileSize, roots[es[0].name := RecordOf(es[0], base)])
    ensures AddEntry(es[0], base, fileSize, roots).Ok? ==>
              AddEntry(es[0], base, fileSize, roots) == Ok(roots[es[0].name := RecordOf(es[0], base)])
  {
    var rest, roots' := es[1..], roots[es[0].name := RecordOf(es[0], base)];
    assert forall i | 0 < i < |es| :: es[i] == rest[i - 1];
    assert forall i | 0 <= i < |rest| :: rest[i] == es[i + 1];
  }

  predicate TakenAt(parse: EntryParser, s: Blob, o: nat, e: Entry) {
    o + EntrySize(e) <= |s| && parse(s[o..]) == Ok((e, s[o + EntrySize(e)..]))
  }

  predicate FoundAt(parse: EntryParser, at: Places, s: Blob, o: nat)
    requires o <= |s|
  {
    parse(s[o..]).Ok? ==> at(s, o, parse(s[o..]).value.0) && TakenAt(parse, s, o, parse(s[o..]).value.0)
  }

  /** The parser takes exactly the entries that lie where it looks. */
  ghost function Agrees(parse: EntryParser, at: Places): Law {
    if (forall s, o: nat, e {:trigger TakenAt(parse, s, o, e)} | at(s, o, e) :: TakenAt(parse, s, o, e))
       && (forall s, o: nat {:trigger FoundAt(parse, at, s, o)} | o <= |s| :: FoundAt(parse, at, s, o))
    then Kept else Broken
  }

  lemma {:induction false} EntriesAgree()
    ensures Agrees(ParseEntry, EntryPlaces()).Kept?
  {
    forall s, o: nat, e | EntryPlaces()(s, o, e)
      ensures TakenAt(ParseEntry, s, o, e)
    {
      EntryReadAt(s, o, e);
    }
    forall s, o: nat | o <= |s|
      ensures FoundAt(ParseEntry, EntryPlaces(), s, o)
    {
      if ParseEntry(s[o..]).Ok? {
        EntryFound(s, o);
      }
    }
  }

  lemma {:induction false} RowsFound(parse: EntryParser, at: Places, s: Blob, o: nat, count: nat, base: nat, fileSize: nat, roots: Index)
    returns (es: seq<Entry>)
    requires Agrees(parse, at).Kept?
    requires base <= fileSize && o <= |s| && LoadRows(parse, s[o..], count, base, fileSize, roots).Ok?
    ensures |es| == count && Filled(at, s, o, es) && Addable(es, base, fileSize, roots)
    ensures LoadRows(parse, s[o..], count, base, fileSize, roots).value == Added(es, base, roots)
    decreases count
  {
    if count == 0 {
      es := [];
    } else {
      var (e, rest) := parse(s[o..]).value;
      assert FoundAt(parse, at, s, o);
      var more := RowsFound(parse, at, s, o + EntrySize(e), count - 1, base, fileSize, AddEntry(e, base, fileSize, roots).value);
      es := [e] + more;
      assert es[1..] == more;
      AddableNext(es, base, fileSize, roots);
    }
  }

  lemma {:induction false} RowsReadAt(parse: EntryParser, at: Places, s: Blob, o: nat, es: seq<Entry>, base: nat, fileSize: nat, roots: Index)
    requires Agrees(parse, at).Kept?
    requires base <= fileSize && Filled(at, s, o, es) && Addable(es, base, fileSize, roots)
    ensures o <= |s| && LoadRows(parse, s[o..], |es|, base, fileSize, roots) == Ok(Added(es, base, roots))
    decreases |es|
  {
    if es != [] {
      assert TakenAt(parse, s, o, es[0]);
      AddableNext(es, base, fileSize, roots);
      RowsReadAt(parse, at, s, o + EntrySize(es[0]), es[1..], base, fileSize, roots[es[0].name := RecordOf(es[0], base)]);
    }
  }

  /** What is added is one record for each entry, and nothing else changes. */
  lemma {:induction false} AddedIs(es: seq<Entry>, base: nat, roots: Index)
    requires OneName(es) && Fresh(es, roots)
    ensures forall i | 0 <= i < |es| :: es[i].name in Added(es, base, roots) && Added(es, base, roots)[es[i].name] == RecordOf(es[i], base)
    ensures forall name | name in roots :: name in Added(es, base, roots) && Added(es, base, roots)[name] == roots[name]
    ensures forall name | name in Added(es, base, roots) :: name in roots || exists i :: 0 <= i < |es| && es[i].name == name
    decreases |es|
  {
    if es != [] {
      var rest, roots' := es[1..], roots[es[0].name := RecordOf(es[0], base)];
      assert forall i | 0 < i < |es| :: es[i] == rest[i - 1];
      AddedIs(rest, base, roots');
      forall name | name in Added(es, base, roots) && name !in roots
        ensures exists i :: 0 <= i < |es| && es[i].name == name
      {
        if name != es[0].name {
          var i :| 0 <= i < |rest| && rest[i].name == name;
          assert es[i + 1].name == name;
        }
      }
    }
  }

  // ------------------------------------------------------------------
  // The file
  // ------------------------------------------------------------------

  lemma {:induction false} AddedAll(es: seq<Entry>, base: nat)
    requires OneName(es)
    ensures RootsAre(Added(es, base, map[]), es, base)
  {
    AddedIs(es, base, map[]);
  }

  lemma {:induction false} RootsUnique(a: Index, b: Index, es: seq<Entry>, base: nat)
    requires RootsAre(a, es, base) && RootsAre(b, es, base)
    ensures a == b
  {
    forall name
      ensures name in a <==> name in b
      ensures name in a ==> a[name] == b[name]
    {
    }
  }

  lemma {:induction false} IndexMeans(c: Checks, file: Blob, h: Header)
    ensures IndexIn(c, file, h).Ok? <==>
              h.count <= 10_000_000 && 44 + h.indexSize <= |file| && (c.on ==> h.indexSum == c.digest(file[44..44 + h.indexSize]))
    ensures IndexIn(c, file, h).Ok? ==> IndexIn(c, file, h).value == file[44..44 + h.indexSize]
  {
  }

  /** The file is a snapshot of these roots. */
  predicate SnapshotOf(c: Checks, file: Blob, sequence: nat, indexSize: nat, es: seq<Entry>, roots: Index) {
    SnapshotAt(c, file, sequence, indexSize, es) && RootsAre(roots, es, 44 + indexSize)
  }

  lemma {:induction false} BodySplits(c: Checks, file: Blob, h: Header)
    requires LoadBody(c, file, h).Ok?
    ensures IndexIn(c, file, h).Ok? && 44 + h.indexSize <= |file|
    ensures var r := LoadRows(ParseEntry, IndexIn(c, file, h).value, h.count, 44 + h.indexSize, |file|, map[]);
            r.Ok? && LoadBody(c, file, h) == Ok((r.value, h.sequence))
  {
  }

  lemma {:induction false} IndexFound(c: Checks, file: Blob, h: Header) returns (es: seq<Entry>)
    requires LoadBody(c, file, h).Ok?
    ensures 44 + h.indexSize <= |file| && h.count <= 10_000_000 && (c.on ==> h.indexSum == c.digest(file[44..44 + h.indexSize]))
    ensures |es| == h.count && Filled(EntryPlaces(), file[44..44 + h.indexSize], 0, es) && Addable(es, 44 + h.indexSize, |file|, map[])
    ensures LoadBody(c, file, h) == Ok((Added(es, 44 + h.indexSize, map[]), h.sequence))
  {
    BodySplits(c, file, h);
    IndexMeans(c, file, h);
    EntriesAgree();
    var index := file[44..44 + h.indexSize];
    assert index[0..] == index;
    es := RowsFound(ParseEntry, EntryPlaces(), index, 0, h.count, 44 + h.indexSize, |file|, map[]);
  }

  lemma {:induction false} SnapshotAssembled(c: Checks, file: Blob, h: Header, es: seq<Entry>)
    requires HeaderAt(c, file, h.sequence, h.count, h.indexSize) && Field(file, 36, 4, h.indexSum) && |es| == h.count
    requires 44 + h.indexSize <= |file| && h.count <= 10_000_000 && (c.on ==> h.indexSum == c.digest(file[44..44 + h.indexSize]))
    requires Filled(EntryPlaces(), file[44..44 + h.indexSize], 0, es) && OneName(es) && Inside(es, 44 + h.indexSize, |file|)
    ensures SnapshotAt(c, file, h.sequence, h.indexSize, es)
  {
  }

  lemma {:induction false} LoadSplits(c: Checks, file: Blob)
    requires LoadImage(c, file).Ok?
    ensures |file| >= 44 && ParseHeader(c, file[..44]).Ok? && LoadImage(c, file) == LoadBody(c, file, ParseHeader(c, file[..44]).value)
  {
  }

  lemma {:induction false} SnapshotFound(c: Checks, file: Blob) returns (indexSize: nat, es: seq<Entry>)
    requires LoadImage(c, file).Ok?
    ensures SnapshotOf(c, file, LoadImage(c, file).value.1, indexSize, es, LoadImage(c, file).value.0)
  {
    LoadSplits(c, file);
    var h := ParseHeader(c, file[..44]).value;
    indexSize := h.indexSize;
    es := IndexFound(c, file, h);
    HeaderMeans(c, file, h);
    SnapshotAssembled(c, file, h, es);
    AddedAll(es, 44 + indexSize);
  }

  lemma {:induction false} IndexReads(c: Checks, file: Blob, h: Header, es: seq<Entry>)
    requires 44 + h.indexSize <= |file| && h.count <= 10_000_000 && (c.on ==> h.indexSum == c.digest(file[44..44 + h.indexSize]))
    requires |es| == h.count && Filled(EntryPlaces(), file[44..44 + h.indexSize], 0, es) && Addable(es, 44 + h.indexSize, |file|, map[])
    ensures LoadBody(c, file, h) == Ok((Added(es, 44 + h.indexSize, map[]), h.sequence))
  {
    IndexMeans(c, file, h);
    EntriesAgree();
    var index := file[44..44 + h.indexSize];
    assert index[0..] == index;
    RowsReadAt(ParseEntry, EntryPlaces(), index, 0, es, 44 + h.indexSize, |file|, map[]);
  }

  lemma {:induction false} LoadJoins(c: Checks, file: Blob, h: Header)
    requires |file| >= 44 && ParseHeader(c, file[..44]) == Ok(h)
    ensures LoadImage(c, file) == LoadBody(c, file, h)
  {
  }

  lemma {:induction false} SnapshotReads(c: Checks, file: Blob, sequence: nat, indexSize: nat, es: seq<Entry>)
    requires SnapshotAt(c, file, sequence, indexSize, es)
    ensures LoadImage(c, file) == Ok((Added(es, 44 + indexSize, map[]), sequence))
  {
    var h := Header(sequence, |es|, indexSize, FromLe(file[36..40]));
    HeaderMeans(c, file, h);
    LoadJoins(c, file, h);
    IndexReads(c, file, h, es);
  }

  lemma {:induction false} SnapshotLoads(c: Checks, file: Blob, sequence: nat, indexSize: nat, es: seq<Entry>, roots: Index)
    requires SnapshotOf(c, file, sequence, indexSize, es, roots)
    ensures LoadImage(c, file) == Ok((roots, sequence))
  {
    SnapshotReads(c, file, sequence, indexSize, es);
    AddedAll(es, 44 + indexSize);
    RootsUnique(roots, Added(es, 44 + indexSize, map[]), es, 44 + indexSize);
  }

  /** A snapshot loads as roots and a sequence number if and only if the file has that number and the
      entries of those roots in these places. */
  lemma {:induction false} LoadMeans(c: Checks, file: Blob, roots: Index, sequence: nat)
    ensures LoadImage(c, file) == Ok((roots, sequence)) <==> exists indexSize: nat, es :: SnapshotOf(c, file, sequence, indexSize, es, roots)
  {
    if LoadImage(c, file) == Ok((roots, sequence)) {
      var indexSize, es := SnapshotFound(c, file);
    }
    forall indexSize: nat, es | SnapshotOf(c, file, sequence, indexSize, es, roots)
      ensures LoadImage(c, file) == Ok((roots, sequence))
    {
      SnapshotLoads(c, file, sequence, indexSize, es, roots);
    }
  }
}
