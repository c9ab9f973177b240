/** Incremental indexing of `codeindex.py` (`index`, `embed_texts`): three tables kept in
    step with a disk, chunk ids that SQLite may reuse, and vectors that cascade with chunks. */
module IndexStore {
  import opened Text
  import opened IndexWindows
  import opened LineBreaks

  const EMBED_BATCH: nat := 64

  datatype Row = Row(id: nat, path: string, chunk: Chunk)

  /** A stored vector: the model it is filed under and the text a host computed it for. */
  datatype Vec = Vec(model: string, text: string)

  datatype Tables = Tables(files: map<string, string>, rows: seq<Row>, vectors: map<nat, Vec>)

  /** One walked path and what reading it gave at index time (None: vanished or unreadable). */
  datatype Seen = Seen(path: string, text: Option<string>)

  // --- file digests ------------------------------------------------------------------------

  predicate IsExtraBreak(text: string, i: nat)
    requires i < |text|
  {
    var n := text[i] as int;
    || (n == 0x0D && (i + 1 == |text| || text[i + 1] != '\n'))
    || n == 0x0B || n == 0x0C || 0x1C <= n <= 0x1E || n == 0x85 || n == 0x2028 || n == 0x2029
  }

  predicate HasExtraBreaks(text: string) {
    exists i :: 0 <= i < |text| && IsExtraBreak(text, i)
  }

  /** The tagged digest of a file's text, given the hash in use. */
  function Digest(sha: string -> string, text: string): string {
    sha(text) + (if HasExtraBreaks(text) then "+nl" else "")
  }

  /** A hash that never collides and, like a hex form, holds no plus sign. */
  ghost predicate GoodHash(sha: string -> string) {
    (forall a, b :: sha(a) == sha(b) ==> a == b) && (forall a :: '+' !in sha(a))
  }

  /** The tag cannot be confused with the hash. */
  lemma DigestInjective(sha: string -> string, a: string, b: string)
    requires GoodHash(sha) && Digest(sha, a) == Digest(sha, b)
    ensures a == b
  {
    TagShows(sha, a);
    TagShows(sha, b);
    var d := Digest(sha, a);
    if HasExtraBreaks(a) {
      assert sha(a) == d[..|d| - 3] == sha(b);
    } else {
      assert sha(a) + "" == sha(a) && sha(b) + "" == sha(b);
    }
  }

  lemma TagShows(sha: string -> string, text: string)
    requires GoodHash(sha)
    ensures '+' in Digest(sha, text) <==> HasExtraBreaks(text)
  {
    if HasExtraBreaks(text) {
      assert Digest(sha, text)[|sha(text)|] == '+';
    }
  }

  /** Plus signs escaped away, reversibly. */
  function Escaped(text: string): string {
    if text == "" then ""
    else (if text[0] == '+' then "-p" else if text[0] == '-' then "--" else [text[0]]) + Escaped(text[1..])
  }

  lemma {:induction false} EscapedApart(a: string, b: string)
    requires Escaped(a) == Escaped(b)
    ensures a == b
  {
    if a != "" && b != "" {
      var e, k := Escaped(a), if a[0] in {'+', '-'} then 2 else 1;
      assert e[0] == '-' <==> k == 2;
      assert e[k..] == Escaped(a[1..]) && e[k..] == Escaped(b[1..]);
      EscapedApart(a[1..], b[1..]);
      assert k == 2 ==> e[1] == (if a[0] == '+' then 'p' else '-') == (if b[0] == '+' then 'p' else '-');
      assert a == [a[0]] + a[1..] && b == [b[0]] + b[1..];
    }
  }

  lemma {:induction false} EscapedHasNoPlus(text: string)
    ensures '+' !in Escaped(text)
  {
    if text != "" {
      EscapedHasNoPlus(text[1..]);
    }
  }

  /** Such hashes exist. */
  lemma GoodHashExists()
    ensures GoodHash(Escaped)
  {
    forall a, b | Escaped(a) == Escaped(b) ensures a == b {
      EscapedApart(a, b);
    }
    forall a ensures '+' !in Escaped(a) {
      EscapedHasNoPlus(a);
    }
  }

  // --- reading and writing rows ----------------------------------------------------------------

  function RowsOf(rows: seq<Row>, path: string): seq<Chunk> {
    if rows == [] then []
    else RowsOf(rows[..|rows| - 1], path) +
         (if rows[|rows| - 1].path == path then [rows[|rows| - 1].chunk] else [])
  }

  /** DELETE FROM chunks WHERE path = ? */
  function Without(rows: seq<Row>, path: string): seq<Row> {
    if rows == [] then []
    else Without(rows[..|rows| - 1], path) + (if rows[|rows| - 1].path == path then [] else [rows[|rows| - 1]])
  }

  predicate HasRow(rows: seq<Row>, id: nat) {
    exists i :: 0 <= i < |rows| && rows[i].id == id
  }

  /** The id SQLite hands to the next insert: one past the largest in use. */
  function NextId(rows: seq<Row>): (id: nat)
    ensures forall i :: 0 <= i < |rows| ==> rows[i].id < id
  {
    if rows == [] then 1
    else
      var below := NextId(rows[..|rows| - 1]);
      if rows[|rows| - 1].id >= below then rows[|rows| - 1].id + 1 else below
  }

  /** ON DELETE CASCADE: vectors of deleted chunks go with them. */
  function Cascade(vectors: map<nat, Vec>, rows: seq<Row>): map<nat, Vec> {
    map id | id in vectors && HasRow(rows, id) :: vectors[id]
  }

  function Cleared(t: Tables, path: string): Tables {
    var rows := Without(t.rows, path);
    t.(rows := rows, vectors := Cascade(t.vectors, rows))
  }

  function Inserted(t: Tables, path: string, chunks: seq<Chunk>): Tables {
    if chunks == [] then t
    else
      var before := Inserted(t, path, chunks[..|chunks| - 1]);
      before.(rows := before.rows + [Row(NextId(before.rows), path, chunks[|chunks| - 1])])
  }

  lemma {:induction false} WithoutRows(rows: seq<Row>, path: string, other: string)
    ensures RowsOf(Without(rows, path), other) == if other == path then [] else RowsOf(rows, other)
  {
    if rows != [] {
      var n := |rows| - 1;
      WithoutRows(rows[..n], path, other);
      var kept := Without(rows[..n], path);
      if rows[n].path != path {
        assert (kept + [rows[n]])[..|kept|] == kept;
      } else {
        assert kept + [] == kept;
      }
    }
  }

  lemma {:induction false} WithoutIsPart(rows: seq<Row>, path: string, r: Row)
    ensures r in Without(rows, path) <==> r in rows && r.path != path
  {
    if rows != [] {
      var n := |rows| - 1;
      WithoutIsPart(rows[..n], path, r);
      assert rows == rows[..n] + [rows[n]];
    }
  }

  /** Distinct ids in the table. */
  ghost predicate DistinctIds(rows: seq<Row>) {
    forall i, j :: 0 <= i < j < |rows| ==> rows[i].id != rows[j].id
  }

  lemma {:induction false} WithoutKeepsDistinct(rows: seq<Row>, path: string)
    requires DistinctIds(rows)
    ensures DistinctIds(Without(rows, path))
  {
    if rows != [] {
      var n := |rows| - 1;
      WithoutKeepsDistinct(rows[..n], path);
      forall r | r in Without(rows[..n], path) ensures r.id != rows[n].id {
        WithoutIsPart(rows[..n], path, r);
      }
    }
  }

  lemma RowsOfAppend(rows: seq<Row>, row: Row, path: string)
    ensures RowsOf(rows + [row], path) == RowsOf(rows, path) + (if row.path == path then [row.chunk] else [])
  {
    assert (rows + [row])[..|rows|] == rows;
  }

  lemma {:induction false} InsertedRows(t: Tables, path: string, chunks: seq<Chunk>, other: string)
    ensures RowsOf(Inserted(t, path, chunks).rows, other)
         == RowsOf(t.rows, other) + (if other == path then chunks else [])
    ensures Inserted(t, path, chunks).files == t.files && Inserted(t, path, chunks).vectors == t.vectors
  {
    hide RowsOf, NextId;
    if chunks != [] {
      var n := |chunks| - 1;
      InsertedRows(t, path, chunks[..n], other);
      var before := Inserted(t, path, chunks[..n]);
      RowsOfAppend(before.rows, Row(NextId(before.rows), path, chunks[n]), other);
      assert chunks == chunks[..n] + [chunks[n]];
    }
  }

  // --- the invariant ------------------------------------------------------------------------------

  /** Chunk ids are distinct and every vector sits on a chunk. */
  ghost predicate Linked(t: Tables) {
    DistinctIds(t.rows) && forall id :: id in t.vectors ==> HasRow(t.rows, id)
  }

  /** Every vector sits on the chunk whose text was embedded. */
  ghost predicate TrueVectors(t: Tables) {
    forall r :: r in t.rows && r.id in t.vectors ==> t.vectors[r.id].text == r.chunk.text
  }

  /** Every vector of `u` is one of `t`, on the same row. */
  ghost predicate Carried(t: Tables, u: Tables) {
    forall r :: r in u.rows && r.id in u.vectors ==>
      r in t.rows && r.id in t.vectors && t.vectors[r.id] == u.vectors[r.id]
  }

  lemma CarriedTruth(t: Tables, u: Tables)
    requires Carried(t, u) && TrueVectors(t)
    ensures TrueVectors(u)
  {
  }

  lemma CarriedOn(t: Tables, u: Tables, v: Tables)
    requires Carried(t, u) && Carried(u, v)
    ensures Carried(t, v)
  {
  }

  ghost predicate IndexedAs(t: Tables, path: string, sha: string -> string, text: string) {
    path in t.files && t.files[path] == Digest(sha, text) && RowsOf(t.rows, path) == Chunks(text)
  }

  /** Each indexed file's rows are the chunks of some text with its digest. */
  ghost predicate FilesOk(t: Tables, sha: string -> string) {
    forall p :: p in t.files ==> exists text :: IndexedAs(t, p, sha, text)
  }

  /** The tables hang together; nothing is said of what they are an index of. */
  ghost predicate Valid(t: Tables) {
    Linked(t) && forall r :: r in t.rows ==> r.path in t.files
  }

  lemma ClearedLinked(t: Tables, path: string)
    requires Linked(t)
    ensures Linked(Cleared(t, path)) && Carried(t, Cleared(t, path))
    ensures forall r :: r in Cleared(t, path).rows <==> r in t.rows && r.path != path
  {
    var c := Cleared(t, path);
    WithoutKeepsDistinct(t.rows, path);
    forall r ensures r in c.rows <==> r in t.rows && r.path != path {
      WithoutIsPart(t.rows, path, r);
    }
  }

  lemma {:induction false} InsertedLinked(t: Tables, path: string, chunks: seq<Chunk>)
    requires Linked(t)
    ensures Linked(Inserted(t, path, chunks)) && Carried(t, Inserted(t, path, chunks))
    ensures forall r :: r in Inserted(t, path, chunks).rows ==> r in t.rows || r.path == path
  {
    hide Linked, Carried, NextId;
    if chunks == [] {
      CarriedSelf(t);
    } else {
      var n := |chunks| - 1;
      var before := Inserted(t, path, chunks[..n]);
      InsertedLinked(t, path, chunks[..n]);
      InsertOneLinked(before, path, chunks[n]);
      CarriedOn(t, before, Inserted(t, path, chunks));
    }
  }

  lemma CarriedSelf(t: Tables)
    ensures Carried(t, t)
  {
  }

  /** A new id, reused or not, never meets an old vector: the cascade left vectors on live
      chunks only. */
  lemma InsertOneLinked(t: Tables, path: string, chunk: Chunk)
    requires Linked(t)
    ensures var after := t.(rows := t.rows + [Row(NextId(t.rows), path, chunk)]);
            && Linked(after) && Carried(t, after) && NextId(t.rows) !in t.vectors
            && forall r :: r in after.rows ==> r in t.rows || r.path == path
  {
    hide NextId;
    var row := Row(NextId(t.rows), path, chunk);
    var after := t.(rows := t.rows + [row]);
    forall id | id in t.vectors ensures HasRow(after.rows, id) && id < row.id {
      var i :| 0 <= i < |t.rows| && t.rows[i].id == id;
      assert after.rows[i].id == id;
    }
  }

  // --- the disk --------------------------------------------------------------------------------------

  ghost predicate DistinctPaths(disk: seq<Seen>) {
    forall i, j :: 0 <= i < j < |disk| ==> disk[i].path != disk[j].path
  }

  /** What the disk says of a path: the text it was read as, if it was. */
  function TextAt(disk: seq<Seen>, path: string): Option<string> {
    if disk == [] then None
    else if disk[|disk| - 1].path == path then disk[|disk| - 1].text
    else TextAt(disk[..|disk| - 1], path)
  }

  lemma {:induction false} TextAtAbsent(disk: seq<Seen>, path: string)
    requires forall i :: 0 <= i < |disk| ==> disk[i].path != path
    ensures TextAt(disk, path) == None
  {
    if disk != [] {
      TextAtAbsent(disk[..|disk| - 1], path);
    }
  }

  /** The tables are an exact picture of the disk: readable files and only they, each with its
      digest and the chunks of its text. This mentions neither `force` nor any earlier state. */
  ghost predicate Mirrors(t: Tables, disk: seq<Seen>, sha: string -> string) {
    && (forall p :: p in t.files <==> TextAt(disk, p).Some?)
    && (forall p :: p in t.files ==> IndexedAs(t, p, sha, TextAt(disk, p).value))
    && (forall r :: r in t.rows ==> r.path in t.files)
  }

  /** Two tables that mirror the same disk hold the same files and, path by path, the same
      chunks in the same order: an incremental run leaves what a forced rebuild leaves. */
  lemma MirrorsAgree(a: Tables, b: Tables, disk: seq<Seen>, sha: string -> string)
    requires Mirrors(a, disk, sha) && Mirrors(b, disk, sha)
    ensures a.files == b.files
    ensures forall p :: RowsOf(a.rows, p) == RowsOf(b.rows, p)
  {
    forall p ensures RowsOf(a.rows, p) == RowsOf(b.rows, p) {
      if p in a.files {
        assert IndexedAs(a, p, sha, TextAt(disk, p).value) && IndexedAs(b, p, sha, TextAt(disk, p).value);
      } else {
        NoRowsOf(a.rows, p);
        NoRowsOf(b.rows, p);
      }
    }
    forall p | p in a.files ensures p in b.files && a.files[p] == b.files[p] {
      assert IndexedAs(a, p, sha, TextAt(disk, p).value) && IndexedAs(b, p, sha, TextAt(disk, p).value);
    }
  }

  lemma {:induction false} NoRowsOf(rows: seq<Row>, path: string)
    requires forall r :: r in rows ==> r.path != path
    ensures RowsOf(rows, path) == []
  {
    if rows != [] {
      NoRowsOf(rows[..|rows| - 1], path);
      assert rows[|rows| - 1] in rows;
    }
  }

  // --- what a run leaves, whatever the hash -------------------------------------------------------------

  /** The file is left as it was: its digest is the one on record. */
  predicate Skipped(before: Tables, path: string, force: bool, sha: string -> string, text: string) {
    !force && path in before.files && before.files[path] == Digest(sha, text)
  }

  ghost predicate Settled(t: Tables, before: Tables, path: string, force: bool, sha: string -> string, text: string) {
    && path in t.files && t.files[path] == Digest(sha, text)
    && RowsOf(t.rows, path) ==
         if Skipped(before, path, force, sha, text) then RowsOf(before.rows, path) else Chunks(text)
  }

  /** What `index` leaves before it embeds: the readable files and only they, each with its digest,
      and with its old chunks if it was skipped, else with the chunks of its text. */
  ghost predicate RefreshedFrom(t: Tables, before: Tables, disk: seq<Seen>, force: bool, sha: string -> string) {
    && (forall p :: p in t.files <==> TextAt(disk, p).Some?)
    && (forall p :: p in t.files ==> Settled(t, before, p, force, sha, TextAt(disk, p).value))
    && (forall r :: r in t.rows ==> r.path in t.files)
  }

  /** No file that is skipped has chunks other than those of its text. */
  ghost predicate NothingStale(before: Tables, disk: seq<Seen>, force: bool, sha: string -> string) {
    forall p :: TextAt(disk, p).Some? && Skipped(before, p, force, sha, TextAt(disk, p).value) ==>
      RowsOf(before.rows, p) == Chunks(TextAt(disk, p).value)
  }

  /** The tables mirror the disk afterwards exactly when nothing stale was skipped. */
  lemma MirrorsExactly(t: Tables, before: Tables, disk: seq<Seen>, force: bool, sha: string -> string)
    requires RefreshedFrom(t, before, disk, force, sha)
    ensures Mirrors(t, disk, sha) <==> NothingStale(before, disk, force, sha)
  {
    hide TextAt, Chunks, Digest, RowsOf, Skipped;
    forall p | p in t.files
      ensures Settled(t, before, p, force, sha, TextAt(disk, p).value)
    {
    }
    if Mirrors(t, disk, sha) {
      forall p | TextAt(disk, p).Some? && Skipped(before, p, force, sha, TextAt(disk, p).value)
        ensures RowsOf(before.rows, p) == Chunks(TextAt(disk, p).value)
      {
        assert IndexedAs(t, p, sha, TextAt(disk, p).value);
      }
    }
  }

  ghost predicate SameChunks(a: Tables, b: Tables) {
    forall p :: RowsOf(a.rows, p) == RowsOf(b.rows, p)
  }

  /** Incremental equals rebuild: a run without `force` leaves the same files as a forced one on the
      same disk, from whatever tables that one started, and the same chunks exactly when nothing
      stale was skipped. */
  lemma IncrementalIsRebuildExactly(a: Tables, before: Tables, b: Tables, other: Tables, disk: seq<Seen>,
                                    sha: string -> string)
    requires RefreshedFrom(a, before, disk, false, sha) && RefreshedFrom(b, other, disk, true, sha)
    ensures a.files == b.files
    ensures SameChunks(a, b) <==> NothingStale(before, disk, false, sha)
  {
    MirrorsExactly(b, other, disk, true, sha);
    MirrorsExactly(a, before, disk, false, sha);
    hide TextAt, Chunks, Digest, RowsOf;
    forall p | p in a.files ensures p in b.files && a.files[p] == b.files[p] {
      assert Settled(a, before, p, false, sha, TextAt(disk, p).value);
      assert Settled(b, other, p, true, sha, TextAt(disk, p).value);
    }
    if NothingStale(before, disk, false, sha) {
      MirrorsAgree(a, b, disk, sha);
    }
    if SameChunks(a, b) {
      SameChunksNothingStale(a, before, b, other, disk, sha);
    }
  }

  lemma SameChunksNothingStale(a: Tables, before: Tables, b: Tables, other: Tables, disk: seq<Seen>,
                               sha: string -> string)
    requires RefreshedFrom(a, before, disk, false, sha) && RefreshedFrom(b, other, disk, true, sha)
    requires SameChunks(a, b)
    ensures NothingStale(before, disk, false, sha)
  {
    hide TextAt, Chunks, Digest, RowsOf;
    forall p | TextAt(disk, p).Some? && Skipped(before, p, false, sha, TextAt(disk, p).value)
      ensures RowsOf(before.rows, p) == Chunks(TextAt(disk, p).value)
    {
      assert p in a.files && p in b.files;
      assert Settled(a, before, p, false, sha, TextAt(disk, p).value);
      assert Settled(b, other, p, true, sha, TextAt(disk, p).value);
      assert RowsOf(a.rows, p) == RowsOf(b.rows, p);
    }
  }

  /** The hash tells the indexed text of each file from the text it has now. */
  ghost predicate CollisionFree(before: Tables, disk: seq<Seen>, sha: string -> string) {
    forall p, u ::
      (IndexedAs(before, p, sha, u) && TextAt(disk, p).Some? && Digest(sha, u) == Digest(sha, TextAt(disk, p).value))
      ==> u == TextAt(disk, p).value
  }

  lemma GoodHashIsCollisionFree(before: Tables, disk: seq<Seen>, sha: string -> string)
    requires GoodHash(sha)
    ensures CollisionFree(before, disk, sha)
  {
    hide GoodHash, Digest, TextAt;
    forall p, u | IndexedAs(before, p, sha, u) && TextAt(disk, p).Some?
                  && Digest(sha, u) == Digest(sha, TextAt(disk, p).value)
      ensures u == TextAt(disk, p).value
    {
      DigestInjective(sha, u, TextAt(disk, p).value);
    }
  }

  /** Then nothing stale is skipped, given tables that are an index of some texts. */
  lemma NoCollisionNothingStale(before: Tables, disk: seq<Seen>, force: bool, sha: string -> string)
    requires FilesOk(before, sha) && CollisionFree(before, disk, sha)
    ensures NothingStale(before, disk, force, sha)
  {
    hide Digest, TextAt, Chunks, RowsOf;
    forall p | TextAt(disk, p).Some? && Skipped(before, p, force, sha, TextAt(disk, p).value)
      ensures RowsOf(before.rows, p) == Chunks(TextAt(disk, p).value)
    {
      var u :| IndexedAs(before, p, sha, u);
    }
  }

  /** And the tables a run leaves are an index of some texts again, collision or not. */
  lemma FilesStayOk(t: Tables, before: Tables, disk: seq<Seen>, force: bool, sha: string -> string)
    requires RefreshedFrom(t, before, disk, force, sha) && FilesOk(before, sha)
    ensures FilesOk(t, sha)
  {
    hide Digest, TextAt, Chunks, RowsOf;
    forall p | p in t.files ensures exists text :: IndexedAs(t, p, sha, text) {
      var text := TextAt(disk, p).value;
      assert Settled(t, before, p, force, sha, text);
      if Skipped(before, p, force, sha, text) {
        var u :| IndexedAs(before, p, sha, u);
        assert IndexedAs(t, p, sha, u);
      } else {
        assert IndexedAs(t, p, sha, text);
      }
    }
  }

  // --- one file at a time ------------------------------------------------------------------------------

  /** One path half-way through the walk: if it is `known` it was indexed before, was not yet read, and
      is untouched; else, if indexed at all, it is settled by what was read of it. */
  ghost predicate PathWalked(t: Tables, before: Tables, read: Option<string>, known: bool, force: bool,
                             sha: string -> string, p: string) {
    && (known ==> p in before.files && p in t.files && read == None
                  && t.files[p] == before.files[p] && RowsOf(t.rows, p) == RowsOf(before.rows, p))
    && (p in before.files ==> known || read.Some?)
    && (p in t.files && !known ==> read.Some? && Settled(t, before, p, force, sha, read.value))
    && (read.Some? ==> p in t.files)
  }

  ghost predicate Walked(t: Tables, before: Tables, disk: seq<Seen>, known: set<string>, force: bool,
                         sha: string -> string) {
    && Valid(t) && Carried(before, t)
    && forall p :: PathWalked(t, before, TextAt(disk, p), p in known, force, sha, p)
  }

  /** The other files are the same in `t` and `u`. */
  ghost predicate OthersKept(t: Tables, u: Tables, path: string) {
    && (forall p :: p != path ==> (p in t.files <==> p in u.files))
    && (forall p :: p != path && p in t.files ==> u.files[p] == t.files[p])
    && (forall p :: p != path ==> RowsOf(u.rows, p) == RowsOf(t.rows, p))
  }

  lemma SettledKept(t: Tables, u: Tables, before: Tables, path: string, p: string, force: bool,
                    sha: string -> string, text: string)
    requires OthersKept(t, u, path) && p != path && Settled(t, before, p, force, sha, text)
    ensures Settled(u, before, p, force, sha, text)
  {
  }

  lemma WalkedKept(t: Tables, u: Tables, before: Tables, path: string, p: string, read: Option<string>, known: bool,
                   force: bool, sha: string -> string)
    requires OthersKept(t, u, path) && p != path && PathWalked(t, before, read, known, force, sha, p)
    ensures PathWalked(u, before, read, known, force, sha, p)
  {
    hide RowsOf, Settled;
    if read.Some? && p in t.files && !known {
      SettledKept(t, u, before, path, p, force, sha, read.value);
    }
  }

  lemma SettledIsWalked(u: Tables, before: Tables, p: string, force: bool, sha: string -> string, text: string)
    requires Settled(u, before, p, force, sha, text)
    ensures PathWalked(u, before, Some(text), false, force, sha, p)
  {
  }

  /** Reading entry `n` successfully moves its path from `known` to the files as on disk. */
  lemma WalkRead(t: Tables, u: Tables, before: Tables, disk: seq<Seen>, n: nat, known: set<string>, force: bool,
                 sha: string -> string, text: string)
    requires DistinctPaths(disk) && n < |disk| && disk[n].text == Some(text)
    requires Walked(t, before, disk[..n], known, force, sha)
    requires Valid(u) && Settled(u, before, disk[n].path, force, sha, text) && OthersKept(t, u, disk[n].path)
    requires Carried(t, u)
    ensures Walked(u, before, disk[..n + 1], known - {disk[n].path}, force, sha)
  {
    hide Valid, Settled, Carried, TextAt, RowsOf, DistinctPaths, PathWalked, OthersKept;
    CarriedOn(before, t, u);
    DiskStep(disk, n);
    var path := disk[n].path;
    forall p ensures PathWalked(u, before, TextAt(disk[..n + 1], p), p in known - {path}, force, sha, p) {
      if p == path {
        SettledIsWalked(u, before, p, force, sha, text);
      } else {
        WalkedKept(t, u, before, path, p, TextAt(disk[..n], p), p in known, force, sha);
      }
    }
  }

  /** An entry that could not be read changes nothing. */
  lemma WalkSkip(t: Tables, before: Tables, disk: seq<Seen>, n: nat, known: set<string>, force: bool,
                 sha: string -> string)
    requires DistinctPaths(disk) && n < |disk| && disk[n].text == None
    requires Walked(t, before, disk[..n], known, force, sha)
    ensures Walked(t, before, disk[..n + 1], known, force, sha)
  {
    hide Valid, Carried, TextAt, DistinctPaths, PathWalked;
    DiskStep(disk, n);
    forall p ensures PathWalked(t, before, TextAt(disk[..n + 1], p), p in known, force, sha, p) {
      assert TextAt(disk[..n + 1], p) == TextAt(disk[..n], p);
    }
  }

  /** One more entry settles its own path and no other. */
  lemma DiskStep(disk: seq<Seen>, n: nat)
    requires DistinctPaths(disk) && n < |disk|
    ensures TextAt(disk[..n], disk[n].path) == None
    ensures TextAt(disk[..n + 1], disk[n].path) == disk[n].text
    ensures forall p :: p != disk[n].path ==> TextAt(disk[..n + 1], p) == TextAt(disk[..n], p)
  {
    assert disk[..n + 1][..n] == disk[..n];
    TextAtAbsent(disk[..n], disk[n].path);
  }

  function Reindexed(t: Tables, path: string, text: string, sha: string -> string): Tables {
    var filled := Inserted(Cleared(t, path), path, Chunks(text));
    filled.(files := filled.files[path := Digest(sha, text)])
  }

  lemma ReindexedRows(t: Tables, path: string, text: string, sha: string -> string, p: string)
    ensures RowsOf(Reindexed(t, path, text, sha).rows, p) == if p == path then Chunks(text) else RowsOf(t.rows, p)
    ensures Reindexed(t, path, text, sha).files == t.files[path := Digest(sha, text)]
  {
    hide Chunks, Digest, Inserted, Cleared, RowsOf;
    ClearedRows(t, path, p);
    ClearedFiles(t, path);
    InsertedRows(Cleared(t, path), path, Chunks(text), p);
  }

  lemma ReindexedOk(t: Tables, path: string, text: string, sha: string -> string)
    requires Valid(t)
    ensures var r := Reindexed(t, path, text, sha);
            && Valid(r) && OthersKept(t, r, path) && Carried(t, r)
            && path in r.files && r.files[path] == Digest(sha, text) && RowsOf(r.rows, path) == Chunks(text)
  {
    hide Chunks, Digest, Linked, Carried, Cleared, Inserted, RowsOf;
    var c, r := Cleared(t, path), Reindexed(t, path, text, sha);
    ClearedLinked(t, path);
    InsertedLinked(c, path, Chunks(text));
    CarriedOn(t, c, Inserted(c, path, Chunks(text)));
    FilesDoNotMatter(t, Inserted(c, path, Chunks(text)), r);
    ReindexedRows(t, path, text, sha, path);
    forall p ensures RowsOf(r.rows, p) == if p == path then Chunks(text) else RowsOf(t.rows, p) {
      ReindexedRows(t, path, text, sha, p);
    }
  }

  lemma FilesDoNotMatter(before: Tables, t: Tables, u: Tables)
    requires Linked(t) && Carried(before, t) && u == t.(files := u.files)
    ensures Linked(u) && Carried(before, u)
  {
  }

  function Forgotten(t: Tables, path: string): Tables {
    Cleared(t, path).(files := t.files - {path})
  }

  lemma ForgottenOk(t: Tables, path: string)
    requires Valid(t)
    ensures Valid(Forgotten(t, path)) && OthersKept(t, Forgotten(t, path), path) && Carried(t, Forgotten(t, path))
  {
    hide Linked, Carried, Cleared, RowsOf;
    var c, f := Cleared(t, path), Forgotten(t, path);
    ClearedLinked(t, path);
    FilesDoNotMatter(t, c, f);
    ClearedFiles(t, path);
    forall p | p != path ensures RowsOf(f.rows, p) == RowsOf(t.rows, p) {
      ClearedRows(t, path, p);
    }
  }

  lemma ClearedFiles(t: Tables, path: string)
    ensures Cleared(t, path).files == t.files
  {
  }

  lemma ClearedRows(t: Tables, path: string, p: string)
    ensures RowsOf(Cleared(t, path).rows, p) == if p == path then [] else RowsOf(t.rows, p)
  {
    WithoutRows(t.rows, path, p);
  }

  /** While vanished files are being dropped: `left` is what still has to go. */
  ghost predicate Leaving(t: Tables, before: Tables, disk: seq<Seen>, left: set<string>, force: bool,
                          sha: string -> string) {
    && Valid(t) && Carried(before, t) && left <= t.files.Keys
    && (forall p :: p in left ==> TextAt(disk, p) == None)
    && (forall p :: p in t.files && p !in left ==>
          TextAt(disk, p).Some? && Settled(t, before, p, force, sha, TextAt(disk, p).value))
    && (forall p :: TextAt(disk, p).Some? ==> p in t.files)
  }

  lemma LeavingStarts(t: Tables, before: Tables, disk: seq<Seen>, known: set<string>, force: bool,
                      sha: string -> string)
    requires Walked(t, before, disk, known, force, sha)
    ensures Leaving(t, before, disk, known, force, sha)
  {
    hide Valid, Settled, TextAt, Carried, RowsOf;
  }

  lemma LeavingStep(t: Tables, before: Tables, disk: seq<Seen>, left: set<string>, rel: string, force: bool,
                    sha: string -> string)
    requires Leaving(t, before, disk, left, force, sha) && rel in left
    ensures Leaving(Forgotten(t, rel), before, disk, left - {rel}, force, sha)
  {
    var f := Forgotten(t, rel);
    ForgottenOk(t, rel);
    CarriedOn(before, t, f);
    hide Valid, Settled, TextAt, Carried, RowsOf, Cleared;
    forall p | p in f.files && p !in left - {rel}
      ensures TextAt(disk, p).Some? && Settled(f, before, p, force, sha, TextAt(disk, p).value)
    {
      SettledKept(t, f, before, rel, p, force, sha, TextAt(disk, p).value);
    }
  }

  lemma LeavingEnds(t: Tables, before: Tables, disk: seq<Seen>, force: bool, sha: string -> string)
    requires Leaving(t, before, disk, {}, force, sha)
    ensures Valid(t) && RefreshedFrom(t, before, disk, force, sha) && Carried(before, t)
  {
    hide Linked, Settled, TextAt, Carried, RowsOf;
  }

  // --- embedding ------------------------------------------------------------------------------------------

  /** What a host answers to one batch: for each vector the text it was computed for, as the host
      has it; None is any failure. */
  type Host = seq<string> -> Option<seq<string>>

  function BatchAt(texts: seq<string>, i: nat): seq<string>
    requires i <= |texts|
  {
    if i + EMBED_BATCH <= |texts| then texts[i..i + EMBED_BATCH] else texts[i..]
  }

  /** Everything one host answers from text `i` on; None as soon as one batch fails. */
  function Answers(host: Host, texts: seq<string>, i: nat): Option<seq<string>>
    decreases |texts| - i
  {
    if i >= |texts| then Some([])
    else
      var reply := host(BatchAt(texts, i));
      if reply == None then None
      else
        var more := Answers(host, texts, i + EMBED_BATCH);
        if more == None then None else Some(reply.value + more.value)
  }

  function Prefixed(head: seq<string>, more: Option<seq<string>>): Option<seq<string>> {
    if more == None then None else Some(head + more.value)
  }

  lemma AnswersStep(host: Host, texts: seq<string>, i: nat, head: seq<string>)
    requires i < |texts|
    ensures var reply := host(BatchAt(texts, i));
            Prefixed(head, Answers(host, texts, i)) ==
            if reply == None then None else Prefixed(head + reply.value, Answers(host, texts, i + EMBED_BATCH))
  {
    var reply, more := host(BatchAt(texts, i)), Answers(host, texts, i + EMBED_BATCH);
    if reply.Some? && more.Some? {
      assert head + (reply.value + more.value) == head + reply.value + more.value;
    }
  }

  lemma AnswersEnds(host: Host, texts: seq<string>, i: nat, head: seq<string>)
    ensures Prefixed([], Answers(host, texts, 0)) == Answers(host, texts, 0)
    ensures i >= |texts| ==> Prefixed(head, Answers(host, texts, i)) == Some(head)
  {
    var all := Answers(host, texts, 0);
    assert all.Some? ==> [] + all.value == all.value;
    assert head + [] == head;
  }

  /** All batches of one host, joined. */
  method AskHost(host: Host, texts: seq<string>) returns (r: Option<seq<string>>)
    ensures r == Answers(host, texts, 0)
  {
    hide Answers, Prefixed;
    var vectors: seq<string> := [];
    var i := 0;
    AnswersEnds(host, texts, 0, []);
    while i < |texts|
      invariant Answers(host, texts, 0) == Prefixed(vectors, Answers(host, texts, i))
    {
      AnswersStep(host, texts, i, vectors);
      var reply := host(BatchAt(texts, i));
      if reply == None {
        return None;
      }
      vectors := vectors + reply.value;
      i := i + EMBED_BATCH;
    }
    AnswersEnds(host, texts, i, vectors);
    return Some(vectors);
  }

  /** The joined answer of the first host that answers every batch. */
  function FirstAnswer(hosts: seq<Host>, texts: seq<string>): Option<seq<string>> {
    if texts == [] then Some([])
    else if hosts == [] then None
    else
      var r := Answers(hosts[0], texts, 0);
      if r.Some? then r else FirstAnswer(hosts[1..], texts)
  }

  /** `embed_texts`: the first host that answers every batch. */
  method EmbedTexts(hosts: seq<Host>, texts: seq<string>) returns (r: Option<seq<string>>)
    ensures r == FirstAnswer(hosts, texts)
  {
    hide Answers;
    if texts == [] {
      return Some([]);
    }
    for h := 0 to |hosts|
      invariant FirstAnswer(hosts, texts) == FirstAnswer(hosts[h..], texts)
    {
      r := AskHost(hosts[h], texts);
      if r.Some? {
        return;
      }
      assert hosts[h..][1..] == hosts[h + 1..];
    }
    return None;
  }

  // --- when the answers fit the texts -------------------------------------------------------------------------

  /** The vectors of one batch: as far as there are texts each is of the text in its place, and any
      further ones are of texts of the batch too. The count may be wrong. */
  ghost predicate OfBatch(reply: seq<string>, batch: seq<string>) {
    && (forall k :: 0 <= k < |reply| && k < |batch| ==> reply[k] == batch[k])
    && (forall k :: 0 <= k < |reply| ==> reply[k] in batch)
  }

  /** Every batch that is asked is answered from its own texts. */
  ghost predicate InPlace(host: Host, texts: seq<string>, i: nat)
    decreases |texts| - i
  {
    i < |texts| ==>
      && (host(BatchAt(texts, i)).Some? ==> OfBatch(host(BatchAt(texts, i)).value, BatchAt(texts, i)))
      && InPlace(host, texts, i + EMBED_BATCH)
  }

  /** Every batch that is asked gets exactly as many vectors as it has texts. */
  ghost predicate OneForOne(host: Host, texts: seq<string>, i: nat)
    decreases |texts| - i
  {
    i < |texts| ==>
      && host(BatchAt(texts, i)).Some? && |host(BatchAt(texts, i)).value| == |BatchAt(texts, i)|
      && OneForOne(host, texts, i + EMBED_BATCH)
  }

  ghost predicate Distinct(texts: seq<string>) {
    forall j, k :: 0 <= j < k < |texts| ==> texts[j] != texts[k]
  }

  function From(texts: seq<string>, i: nat): seq<string> {
    if i <= |texts| then texts[i..] else []
  }

  lemma FromStep(texts: seq<string>, i: nat)
    requires i < |texts|
    ensures From(texts, i) == BatchAt(texts, i) + From(texts, i + EMBED_BATCH)
  {
  }

  /** Answered in place and one for one, the answer is the texts. */
  lemma {:induction false} OneForOneFits(host: Host, texts: seq<string>, i: nat)
    requires InPlace(host, texts, i) && OneForOne(host, texts, i)
    ensures Answers(host, texts, i) == Some(From(texts, i))
    decreases |texts| - i
  {
    if i < |texts| {
      FromStep(texts, i);
      OneForOneFits(host, texts, i + EMBED_BATCH);
      assert host(BatchAt(texts, i)).value == BatchAt(texts, i);
    }
  }

  lemma {:induction false} AnswersAreLater(host: Host, texts: seq<string>, i: nat)
    requires InPlace(host, texts, i) && Answers(host, texts, i).Some?
    ensures forall x :: x in Answers(host, texts, i).value ==> x in From(texts, i)
    decreases |texts| - i
  {
    if i < |texts| {
      FromStep(texts, i);
      AnswersAreLater(host, texts, i + EMBED_BATCH);
    }
  }

  /** No text of a batch comes again in a later one. */
  lemma BatchApart(texts: seq<string>, i: nat, x: string)
    requires Distinct(texts) && i < |texts| && x in BatchAt(texts, i)
    ensures x !in From(texts, i + EMBED_BATCH)
  {
    var batch := BatchAt(texts, i);
    var k :| 0 <= k < |batch| && batch[k] == x;
    assert texts[i + k] == x;
  }

  /** A first batch with the wrong number of vectors puts a wrong one in some place. */
  lemma WrongCountMisplaces(batch: seq<string>, later: seq<string>, reply: seq<string>, more: seq<string>)
    requires OfBatch(reply, batch) && |reply + more| == |batch + later| && |reply| != |batch|
    requires later == [] ==> more == []
    requires forall x :: x in more ==> x in later
    requires forall x :: x in batch ==> x !in later
    ensures reply + more != batch + later
  {
    if |reply| < |batch| {
      assert (reply + more)[|reply|] in more && (batch + later)[|reply|] in batch;
    } else {
      assert (reply + more)[|batch|] in batch && (batch + later)[|batch|] in later;
    }
  }

  lemma {:induction false} FitsOneForOne(host: Host, texts: seq<string>, i: nat)
    requires Distinct(texts) && InPlace(host, texts, i) && Answers(host, texts, i) == Some(From(texts, i))
    ensures OneForOne(host, texts, i)
    decreases |texts| - i
  {
    if i < |texts| {
      var batch, later := BatchAt(texts, i), From(texts, i + EMBED_BATCH);
      var reply, more := host(batch).value, Answers(host, texts, i + EMBED_BATCH).value;
      FromStep(texts, i);
      AnswersAreLater(host, texts, i + EMBED_BATCH);
      forall x | x in batch ensures x !in later {
        BatchApart(texts, i, x);
      }
      if |reply| != |batch| {
        WrongCountMisplaces(batch, later, reply, more);
        assert false;
      }
      assert (reply + more)[|batch|..] == more && (batch + later)[|batch|..] == later;
      FitsOneForOne(host, texts, i + EMBED_BATCH);
    }
  }

  /** The total is not enough: for distinct texts and a host that answers batches from their own
      texts, an answer fits the texts exactly when every batch asked got one vector per text. */
  lemma FitsExactly(host: Host, texts: seq<string>)
    requires Distinct(texts) && InPlace(host, texts, 0)
    ensures Answers(host, texts, 0) == Some(texts) <==> OneForOne(host, texts, 0)
  {
    assert From(texts, 0) == texts;
    if OneForOne(host, texts, 0) {
      OneForOneFits(host, texts, 0);
    }
    if Answers(host, texts, 0) == Some(texts) {
      FitsOneForOne(host, texts, 0);
    }
  }

  // --- storing --------------------------------------------------------------------------------------------------

  predicate NeedsVector(t: Tables, model: string, row: Row) {
    row.id !in t.vectors || t.vectors[row.id].model != model
  }

  /** Rows without a vector of this model, in table order. */
  function Pending(t: Tables, model: string, n: nat): seq<Row>
    requires n <= |t.rows|
  {
    if n == 0 then []
    else
      var row := t.rows[n - 1];
      Pending(t, model, n - 1) + (if NeedsVector(t, model, row) then [row] else [])
  }

  lemma {:induction false} PendingAreRows(t: Tables, model: string, n: nat, r: Row)
    requires n <= |t.rows|
    ensures r in Pending(t, model, n) <==> r in t.rows[..n] && NeedsVector(t, model, r)
  {
    hide NeedsVector;
    if n > 0 {
      PendingAreRows(t, model, n - 1, r);
      assert t.rows[..n] == t.rows[..n - 1] + [t.rows[n - 1]];
    }
  }

  lemma {:induction false} PendingDistinct(t: Tables, model: string, n: nat)
    requires n <= |t.rows| && DistinctIds(t.rows)
    ensures DistinctIds(Pending(t, model, n))
  {
    hide NeedsVector;
    if n > 0 {
      PendingDistinct(t, model, n - 1);
      forall r | r in Pending(t, model, n - 1) ensures r.id != t.rows[n - 1].id {
        PendingAreRows(t, model, n - 1, r);
      }
    }
  }

  function TextsOf(rows: seq<Row>): seq<string> {
    seq(|rows|, j requires 0 <= j < |rows| => rows[j].chunk.text)
  }

  function PendingRows(t: Tables, model: string): seq<Row> {
    Pending(t, model, |t.rows|)
  }

  /** The texts one call of `index` asks to have embedded. */
  function PendingTexts(t: Tables, model: string): seq<string> {
    TextsOf(PendingRows(t, model))
  }

  /** INSERT OR REPLACE of the first `n` answers. */
  function Stored(vectors: map<nat, Vec>, rows: seq<Row>, replies: seq<string>, model: string, n: nat): map<nat, Vec>
    requires n <= |rows| && n <= |replies|
  {
    if n == 0 then vectors
    else Stored(vectors, rows, replies, model, n - 1)[rows[n - 1].id := Vec(model, replies[n - 1])]
  }

  /** An answer came, with the right total. */
  predicate Embeds(t: Tables, hosts: seq<Host>, model: string) {
    var answer := FirstAnswer(hosts, PendingTexts(t, model));
    answer.Some? && |answer.value| == |PendingRows(t, model)|
  }

  /** What the embedding step leaves. */
  function Embedded(t: Tables, hosts: seq<Host>, model: string): Tables {
    if !Embeds(t, hosts, model) then t
    else
      var rows := PendingRows(t, model);
      t.(vectors := Stored(t.vectors, rows, FirstAnswer(hosts, PendingTexts(t, model)).value, model, |rows|))
  }

  /** Keyword search aside, every chunk can be found by a vector. */
  ghost predicate EveryRowEmbedded(t: Tables, model: string) {
    forall r :: r in t.rows ==> !NeedsVector(t, model, r)
  }

  lemma {:induction false} StoredAt(vectors: map<nat, Vec>, rows: seq<Row>, replies: seq<string>, model: string, n: nat)
    requires n <= |rows| && n <= |replies| && DistinctIds(rows)
    ensures var s := Stored(vectors, rows, replies, model, n);
            && (forall k :: 0 <= k < n ==> rows[k].id in s && s[rows[k].id] == Vec(model, replies[k]))
            && (forall id :: (forall k :: 0 <= k < n ==> rows[k].id != id) ==>
                  (id in s <==> id in vectors) && (id in vectors ==> s[id] == vectors[id]))
  {
    if n > 0 {
      StoredAt(vectors, rows, replies, model, n - 1);
    }
  }

  /** After a stored answer: each pending row has the answer in its place, every other row what
      it had. */
  lemma EmbeddedAt(t: Tables, hosts: seq<Host>, model: string)
    requires Linked(t) && Embeds(t, hosts, model)
    ensures var u, rows := Embedded(t, hosts, model), PendingRows(t, model);
            var answer := FirstAnswer(hosts, PendingTexts(t, model)).value;
            && u == t.(vectors := u.vectors)
            && (forall r :: r in rows <==> r in t.rows && NeedsVector(t, model, r))
            && (forall k :: 0 <= k < |rows| ==>
                  rows[k].id in u.vectors && u.vectors[rows[k].id] == Vec(model, answer[k]))
            && (forall id :: (forall k :: 0 <= k < |rows| ==> rows[k].id != id) ==>
                  (id in u.vectors <==> id in t.vectors) && (id in t.vectors ==> u.vectors[id] == t.vectors[id]))
  {
    hide NeedsVector, Pending, FirstAnswer, Stored;
    var rows := PendingRows(t, model);
    PendingDistinct(t, model, |t.rows|);
    StoredAt(t.vectors, rows, FirstAnswer(hosts, PendingTexts(t, model)).value, model, |rows|);
    assert t.rows[..|t.rows|] == t.rows;
    forall r ensures r in rows <==> r in t.rows && NeedsVector(t, model, r) {
      PendingAreRows(t, model, |t.rows|, r);
    }
  }

  /** The embedding step is all or nothing, and once it stores, every chunk has a vector filed
      under this model; vectors already filed under it stay. */
  lemma EmbedIsAllOrNothing(t: Tables, hosts: seq<Host>, model: string)
    requires Linked(t)
    ensures var u := Embedded(t, hosts, model);
            && Linked(u) && (if Embeds(t, hosts, model) then EveryRowEmbedded(u, model) else u == t)
            && forall r :: r in t.rows && !NeedsVector(t, model, r) ==> u.vectors[r.id] == t.vectors[r.id]
  {
    hide Pending, FirstAnswer, Stored, Embeds;
    if Embeds(t, hosts, model) {
      EmbeddedAt(t, hosts, model);
      hide Embedded;
      var u, rows := Embedded(t, hosts, model), PendingRows(t, model);
      forall id | id in u.vectors ensures HasRow(u.rows, id) {
        if k :| 0 <= k < |rows| && rows[k].id == id {
          assert rows[k] in t.rows;
        }
      }
      forall r | r in t.rows && !NeedsVector(t, model, r)
        ensures r.id in u.vectors && u.vectors[r.id] == t.vectors[r.id]
      {
        NotPending(t, model, r, rows);
      }
    }
  }

  lemma NotPending(t: Tables, model: string, r: Row, rows: seq<Row>)
    requires DistinctIds(t.rows) && r in t.rows && !NeedsVector(t, model, r)
    requires forall s :: s in rows ==> s in t.rows && NeedsVector(t, model, s)
    ensures forall k :: 0 <= k < |rows| ==> rows[k].id != r.id
  {
    forall k | 0 <= k < |rows| ensures rows[k].id != r.id {
      assert rows[k] in rows;
      SameIdSameRow(t.rows, rows[k], r);
    }
  }

  lemma SameIdSameRow(rows: seq<Row>, r: Row, s: Row)
    requires DistinctIds(rows) && r in rows && s in rows
    ensures r.id == s.id ==> r == s
  {
  }

  /** If all vectors were true before, they are afterwards exactly when the stored answer, if any,
      is the texts that were asked. */
  lemma EmbedIsTrueExactly(t: Tables, hosts: seq<Host>, model: string)
    requires Linked(t) && TrueVectors(t)
    ensures TrueVectors(Embedded(t, hosts, model)) <==>
      (Embeds(t, hosts, model) ==> FirstAnswer(hosts, PendingTexts(t, model)) == Some(PendingTexts(t, model)))
  {
    hide Pending, FirstAnswer, Stored, Embeds, NeedsVector;
    if Embeds(t, hosts, model) {
      EmbeddedAt(t, hosts, model);
      EmbedLength(t, hosts, model);
      var texts := PendingTexts(t, model);
      var answer := FirstAnswer(hosts, texts).value;
      var u, rows := Embedded(t, hosts, model), PendingRows(t, model);
      hide Embedded;
      if answer == texts {
        forall r | r in u.rows && r.id in u.vectors ensures u.vectors[r.id].text == r.chunk.text {
          if k :| 0 <= k < |rows| && rows[k].id == r.id {
            assert rows[k] in rows;
            SameIdSameRow(t.rows, rows[k], r);
          }
        }
      } else {
        var k :| 0 <= k < |rows| && answer[k] != texts[k];
        assert rows[k] in rows;
        assert u.vectors[rows[k].id].text != rows[k].chunk.text;
      }
    }
  }

  lemma EmbedLength(t: Tables, hosts: seq<Host>, model: string)
    requires Embeds(t, hosts, model)
    ensures FirstAnswer(hosts, PendingTexts(t, model)).Some?
    ensures |FirstAnswer(hosts, PendingTexts(t, model)).value| == |PendingRows(t, model)| == |PendingTexts(t, model)|
  {
  }

  /** Host `h` is the first that answers every batch. */
  ghost predicate AnsweredBy(hosts: seq<Host>, texts: seq<string>, h: nat) {
    && h < |hosts| && Answers(hosts[h], texts, 0).Some?
    && forall g :: 0 <= g < h ==> Answers(hosts[g], texts, 0).None?
  }

  lemma {:induction false} FirstAnswerIs(hosts: seq<Host>, texts: seq<string>, h: nat)
    requires AnsweredBy(hosts, texts, h)
    ensures FirstAnswer(hosts, texts) == Answers(hosts[h], texts, 0)
  {
    hide Answers;
    if texts == [] {
      assert Answers(hosts[h], [], 0) == Some([]) by { NothingAsked(hosts[h]); }
    } else if h > 0 {
      assert forall g :: 0 <= g < h - 1 ==> hosts[1..][g] == hosts[g + 1];
      FirstAnswerIs(hosts[1..], texts, h - 1);
    }
  }

  lemma NothingAsked(host: Host)
    ensures Answers(host, [], 0) == Some([])
  {
  }

  /** Put together: when the host that answers does so from each batch's own texts, and the pending
      texts are distinct, an answer with the right total leaves only true vectors exactly when every
      batch got one vector per text. */
  lemma CountsPerBatchDecide(t: Tables, hosts: seq<Host>, model: string, h: nat)
    requires Linked(t) && TrueVectors(t) && Embeds(t, hosts, model) && Distinct(PendingTexts(t, model))
    requires AnsweredBy(hosts, PendingTexts(t, model), h) && InPlace(hosts[h], PendingTexts(t, model), 0)
    ensures TrueVectors(Embedded(t, hosts, model)) <==> OneForOne(hosts[h], PendingTexts(t, model), 0)
  {
    hide Pending, FirstAnswer, Stored, Answers;
    var texts := PendingTexts(t, model);
    FirstAnswerIs(hosts, texts, h);
    FitsExactly(hosts[h], texts);
    EmbedIsTrueExactly(t, hosts, model);
  }

  /** Hosts that, whenever they answer, do so in place and one for one: the embedding is true and,
      if one of them always answers, complete. */
  ghost predicate GoodHosts(hosts: seq<Host>, texts: seq<string>) {
    forall h :: 0 <= h < |hosts| && Answers(hosts[h], texts, 0).Some? ==>
      InPlace(hosts[h], texts, 0) && OneForOne(hosts[h], texts, 0)
  }

  lemma {:induction false} GoodHostsFit(hosts: seq<Host>, texts: seq<string>)
    requires GoodHosts(hosts, texts)
    ensures FirstAnswer(hosts, texts).Some? ==> FirstAnswer(hosts, texts) == Some(texts)
    ensures (exists h :: 0 <= h < |hosts| && Answers(hosts[h], texts, 0).Some?) ==> FirstAnswer(hosts, texts).Some?
  {
    hide Answers, InPlace, OneForOne;
    if texts != [] && hosts != [] {
      if Answers(hosts[0], texts, 0).Some? {
        OneForOneFits(hosts[0], texts, 0);
        assert From(texts, 0) == texts;
      } else {
        var rest := hosts[1..];
        assert forall h :: 0 <= h < |rest| ==> rest[h] == hosts[h + 1];
        GoodHostsFit(rest, texts);
        if h :| 0 <= h < |hosts| && Answers(hosts[h], texts, 0).Some? {
          assert rest[h - 1] == hosts[h];
        }
      }
    }
  }

  // --- the index ---------------------------------------------------------------------------------------------

  class Index {
    var files: map<string, string>
    var rows: seq<Row>
    var vectors: map<nat, Vec>

    constructor ()
      ensures Now() == Tables(map[], [], map[])
    {
      files, rows, vectors := map[], [], map[];
    }

    function Now(): Tables
      reads this
    {
      Tables(files, rows, vectors)
    }

    /** DELETE FROM chunks WHERE path = ?, with its cascade. */
    method DeleteChunks(path: string)
      modifies this
      ensures Now() == Cleared(old(Now()), path)
    {
      rows := Without(rows, path);
      vectors := Cascade(vectors, rows);
    }

    method InsertChunks(path: string, chunks: seq<Chunk>)
      modifies this
      ensures Now() == Inserted(old(Now()), path, chunks)
    {
      for n := 0 to |chunks|
        invariant Now() == Inserted(old(Now()), path, chunks[..n])
      {
        assert chunks[..n + 1][..n] == chunks[..n];
        rows := rows + [Row(NextId(rows), path, chunks[n])];
      }
      assert chunks[..|chunks|] == chunks;
    }

    /** `index` up to its first commit: bring the file and chunk tables in line with the disk. */
    method Refresh(disk: seq<Seen>, force: bool, sha: string -> string)
      requires Valid(Now()) && DistinctPaths(disk)
      modifies this
      ensures Valid(Now()) && Carried(old(Now()), Now())
      ensures RefreshedFrom(Now(), old(Now()), disk, force, sha)
      ensures Mirrors(Now(), disk, sha) <==> NothingStale(old(Now()), disk, force, sha)
    {
      hide Valid, Settled, TextAt, Mirrors, Chunks, Digest, Carried, RowsOf, RefreshedFrom, NothingStale;
      ghost var before := Now();
      var known := files;
      assert disk[..0] == [];
      StartWalk(before, force, sha);
      for n := 0 to |disk|
        invariant Walked(Now(), before, disk[..n], known.Keys, force, sha)
        invariant forall p :: p in known ==> p in files && known[p] == files[p]
      {
        if disk[n].text == None {
          WalkSkip(Now(), before, disk, n, known.Keys, force, sha);
        } else {
          known := RefreshOne(disk, n, known, force, sha, before);
        }
      }
      assert disk[..|disk|] == disk;
      ForgetKnown(known.Keys, before, disk, force, sha);
      MirrorsExactly(Now(), before, disk, force, sha);
    }

    /** One readable entry of the walk. */
    method RefreshOne(disk: seq<Seen>, n: nat, known: map<string, string>, force: bool, sha: string -> string,
                      ghost before: Tables) returns (rest: map<string, string>)
      requires DistinctPaths(disk) && n < |disk| && disk[n].text.Some?
      requires Walked(Now(), before, disk[..n], known.Keys, force, sha)
      requires forall p :: p in known ==> p in files && known[p] == files[p]
      modifies this
      ensures Walked(Now(), before, disk[..n + 1], rest.Keys, force, sha) && rest == known - {disk[n].path}
      ensures forall p :: p in rest ==> p in files && rest[p] == files[p]
    {
      hide Valid, TextAt, Chunks, Digest, Cleared, Inserted, Carried, RowsOf;
      var rel, text := disk[n].path, disk[n].text.value;
      var digest := Digest(sha, text);
      var previous := if rel in known then Some(known[rel]) else None;
      rest := known - {rel};
      assert rest.Keys == known.Keys - {rel};
      ghost var t := Now();
      DiskStep(disk, n);
      assert Skipped(before, rel, force, sha, text) <==> previous.Some? && !force && previous.value == digest;
      if previous.Some? && !force && previous.value == digest {
        CarriedSelf(t);
        WalkRead(t, t, before, disk, n, known.Keys, force, sha, text);
        return;
      }
      ReindexedOk(t, rel, text, sha);
      DeleteChunks(rel);
      var chunks := ChunksFor(text);
      InsertChunks(rel, chunks);
      files := files[rel := digest];
      WalkRead(t, Now(), before, disk, n, known.Keys, force, sha, text);
    }

    /** The last loop: whatever was known but not read this time is dropped. */
    method ForgetKnown(known: set<string>, ghost before: Tables, ghost disk: seq<Seen>, ghost force: bool,
                       ghost sha: string -> string)
      requires Walked(Now(), before, disk, known, force, sha)
      modifies this
      ensures Valid(Now()) && RefreshedFrom(Now(), before, disk, force, sha) && Carried(before, Now())
    {
      hide Leaving, Walked, RefreshedFrom, Carried;
      var left := known;
      LeavingStarts(Now(), before, disk, known, force, sha);
      while left != {}
        invariant Leaving(Now(), before, disk, left, force, sha)
        decreases |left|
      {
        var rel :| rel in left;
        LeavingStep(Now(), before, disk, left, rel, force, sha);
        DeleteChunks(rel);
        files := files - {rel};
        left := left - {rel};
      }
      LeavingEnds(Now(), before, disk, force, sha);
    }

    /** The embedding step: every pending row gets the answer in its place, or none does. */
    method Embed(hosts: seq<Host>, model: string)
      modifies this`vectors
      ensures Now() == Embedded(old(Now()), hosts, model)
    {
      hide Pending, FirstAnswer;
      var pending := PendingRows(Now(), model);
      var reply := EmbedTexts(hosts, TextsOf(pending));
      if reply == None || |reply.value| != |pending| {
        return;
      }
      for k := 0 to |pending|
        invariant vectors == Stored(old(vectors), pending, reply.value, model, k)
      {
        vectors := vectors[pending[k].id := Vec(model, reply.value[k])];
      }
    }

    /** `index`: the tables are refreshed from the disk whatever the hosts answer, and mirror it exactly
        when nothing stale was skipped. An answer of the right total leaves no chunk without a
        vector. Vectors that were true stay true exactly when the answer that is stored, if any, is
        the texts that were asked. */
    method IndexRoot(disk: seq<Seen>, force: bool, sha: string -> string, hosts: seq<Host>, model: string)
      returns (ghost refreshed: Tables)
      requires Valid(Now()) && DistinctPaths(disk)
      modifies this
      ensures Valid(Now()) && RefreshedFrom(Now(), old(Now()), disk, force, sha)
      ensures Mirrors(Now(), disk, sha) <==> NothingStale(old(Now()), disk, force, sha)
      ensures Valid(refreshed) && Carried(old(Now()), refreshed) && refreshed == Now().(vectors := refreshed.vectors)
      ensures Now() == Embedded(refreshed, hosts, model)
      ensures Embeds(refreshed, hosts, model) ==> EveryRowEmbedded(Now(), model)
      ensures TrueVectors(old(Now())) ==>
        (TrueVectors(Now()) <==>
          (Embeds(refreshed, hosts, model) ==>
            FirstAnswer(hosts, PendingTexts(refreshed, model)) == Some(PendingTexts(refreshed, model))))
      ensures TrueVectors(old(Now())) && GoodHosts(hosts, PendingTexts(refreshed, model)) ==> TrueVectors(Now())
    {
      hide Mirrors, Linked, TrueVectors, Carried, EveryRowEmbedded, FirstAnswer, Embeds, PendingTexts,
        GoodHosts, NeedsVector, RefreshedFrom, NothingStale;
      ghost var before := Now();
      Refresh(disk, force, sha);
      refreshed := Now();
      EmbedIsAllOrNothing(refreshed, hosts, model);
      if TrueVectors(before) {
        CarriedTruth(before, refreshed);
        EmbedIsTrueExactly(refreshed, hosts, model);
      }
      if GoodHosts(hosts, PendingTexts(refreshed, model)) {
        GoodHostsFit(hosts, PendingTexts(refreshed, model));
        GoodAnswerFits(refreshed, hosts, model);
      }
      Embed(hosts, model);
      SameButVectors(refreshed, Now(), before, disk, force, sha);
    }
  }

  lemma GoodAnswerFits(t: Tables, hosts: seq<Host>, model: string)
    ensures Embeds(t, hosts, model) ==> FirstAnswer(hosts, PendingTexts(t, model)).Some?
  {
  }

  lemma SameButVectors(t: Tables, u: Tables, before: Tables, disk: seq<Seen>, force: bool, sha: string -> string)
    requires RefreshedFrom(t, before, disk, force, sha) && u == t.(vectors := u.vectors)
    ensures RefreshedFrom(u, before, disk, force, sha) && (Mirrors(u, disk, sha) <==> Mirrors(t, disk, sha))
  {
    hide TextAt, RowsOf, Digest, Chunks;
    forall p | p in u.files ensures Settled(u, before, p, force, sha, TextAt(disk, p).value) {
      assert Settled(t, before, p, force, sha, TextAt(disk, p).value);
    }
    forall p, text ensures IndexedAs(t, p, sha, text) <==> IndexedAs(u, p, sha, text) {
    }
  }

  lemma StartWalk(t: Tables, force: bool, sha: string -> string)
    requires Valid(t)
    ensures Walked(t, t, [], t.files.Keys, force, sha)
  {
  }

  // --- a collision keeps old chunks -----------------------------------------------------------------------------

  /** A hash that tells nothing apart; `f` was indexed as one letter and now has two. */
  function Blind(text: string): string {
    "0"
  }

  function OldIndex(): Tables {
    Tables(map["f" := "0"], [Row(1, "f", Chunk(1, 1, Letters(1, 'a')))], map[])
  }

  function NewDisk(): seq<Seen> {
    [Seen("f", Some(Letters(2, 'a')))]
  }

  lemma OldIndexInOrder()
    ensures Valid(OldIndex()) && FilesOk(OldIndex(), Blind)
    ensures RowsOf(OldIndex().rows, "f") == [Chunk(1, 1, Letters(1, 'a'))]
  {
    var t := OldIndex();
    OneChunk(1);
    NoExtraBreaks(1);
    hide Chunks, HasExtraBreaks;
    assert t.rows[..0] == [];
    assert RowsOf(t.rows, "f") == [Chunk(1, 1, Letters(1, 'a'))];
    assert IndexedAs(t, "f", Blind, Letters(1, 'a'));
  }

  /** The index is in order, the file has changed, and a run without `force` skips it; with `force`
      it does not. */
  lemma CollisionKeepsOldChunks()
    ensures Valid(OldIndex()) && FilesOk(OldIndex(), Blind) && DistinctPaths(NewDisk())
    ensures !NothingStale(OldIndex(), NewDisk(), false, Blind) && NothingStale(OldIndex(), NewDisk(), true, Blind)
  {
    OldIndexInOrder();
    OneChunk(2);
    NoExtraBreaks(2);
    var t, disk := OldIndex(), NewDisk();
    hide Chunks, HasExtraBreaks, RowsOf, Valid, FilesOk;
    assert disk[..0] == [] && TextAt(disk, "f") == Some(Letters(2, 'a'));
    assert |Letters(1, 'a')| != |Letters(2, 'a')|;
    assert Skipped(t, "f", false, Blind, Letters(2, 'a'));
  }

  lemma NoExtraBreaks(n: nat)
    ensures !HasExtraBreaks(Letters(n, 'a'))
  {
  }

  // --- why the total count is not enough -------------------------------------------------------------------------

  /** A host that answers one vector too few when a certain text is in the batch, else one too many. */
  function Miscounting(mark: string): Host {
    (batch: seq<string>) =>
      if batch == [] then Some([])
      else if mark in batch then Some(batch[..|batch| - 1])
      else Some(batch + [batch[|batch| - 1]])
  }

  lemma {:induction false} MiscountingInPlace(mark: string, texts: seq<string>, i: nat)
    ensures InPlace(Miscounting(mark), texts, i)
    decreases |texts| - i
  {
    if i < |texts| {
      MiscountingInPlace(mark, texts, i + EMBED_BATCH);
    }
  }

  /** The total count is not enough: over two full batches the two mistakes cancel out. */
  lemma MiscountSlipsThrough(mark: string, texts: seq<string>)
    requires |texts| == 2 * EMBED_BATCH && Distinct(texts) && mark in texts
    ensures var answer := Answers(Miscounting(mark), texts, 0); answer.Some? && |answer.value| == |texts|
    ensures !OneForOne(Miscounting(mark), texts, 0)
  {
    var host, n := Miscounting(mark), EMBED_BATCH;
    var one, two := texts[..n], texts[n..];
    assert BatchAt(texts, 0) == one && BatchAt(texts, n) == two && one + two == texts;
    if mark in one {
      BatchApart(texts, 0, mark);
      assert From(texts, n) == two;
    }
    assert Answers(host, texts, 2 * n) == Some([]);
    assert Answers(host, texts, n) == Some(host(two).value + []);
    assert Answers(host, texts, 0) == Some(host(one).value + (host(two).value + []));
  }

  /** So after the call a chunk carries the vector of another text, on every index with 128 distinct
      pending texts, whatever their order. */
  lemma MiscountMisfilesVectors(t: Tables, model: string, mark: string)
    requires Linked(t) && TrueVectors(t) && |PendingTexts(t, model)| == 2 * EMBED_BATCH
    requires Distinct(PendingTexts(t, model)) && mark in PendingTexts(t, model)
    ensures Embeds(t, [Miscounting(mark)], model) && !TrueVectors(Embedded(t, [Miscounting(mark)], model))
  {
    hide Pending, Stored, Answers;
    var texts, hosts := PendingTexts(t, model), [Miscounting(mark)];
    MiscountingInPlace(mark, texts, 0);
    MiscountSlipsThrough(mark, texts);
    assert AnsweredBy(hosts, texts, 0);
    FirstAnswerIs(hosts, texts, 0);
    CountsPerBatchDecide(t, hosts, model, 0);
  }

  // --- a disk on which it happens --------------------------------------------------------------------------------

  /** `n` times the same letter. */
  function Letters(n: nat, c: char): string {
    seq(n, i => c)
  }

  /** 128 files of one line each, of lengths 1 to 128. */
  function SampleDisk(): seq<Seen> {
    seq(2 * EMBED_BATCH, i requires 0 <= i < 2 * EMBED_BATCH => Seen(Letters(i + 1, 'p'), Some(Letters(i + 1, 'a'))))
  }

  lemma SampleText(p: string)
    ensures DistinctPaths(SampleDisk())
    ensures TextAt(SampleDisk(), p).Some? ==>
      1 <= |p| <= 2 * EMBED_BATCH && p == Letters(|p|, 'p') && TextAt(SampleDisk(), p).value == Letters(|p|, 'a')
    ensures forall n :: 1 <= n <= 2 * EMBED_BATCH ==>
      TextAt(SampleDisk(), Letters(n, 'p')) == Some(Letters(n, 'a'))
  {
    var disk := SampleDisk();
    forall i, j | 0 <= i < j < |disk| ensures disk[i].path != disk[j].path {
      assert |disk[i].path| == i + 1 && |disk[j].path| == j + 1;
    }
    if TextAt(disk, p).Some? {
      if forall i :: 0 <= i < |disk| ==> disk[i].path != p {
        TextAtAbsent(disk, p);
        assert false;
      }
      var i :| 0 <= i < |disk| && disk[i].path == p;
      TextAtIs(disk, i);
    }
    forall n | 1 <= n <= 2 * EMBED_BATCH ensures TextAt(disk, Letters(n, 'p')) == Some(Letters(n, 'a')) {
      TextAtIs(disk, n - 1);
    }
  }

  lemma {:induction false} TextAtIs(disk: seq<Seen>, i: nat)
    requires DistinctPaths(disk) && i < |disk|
    ensures TextAt(disk, disk[i].path) == disk[i].text
  {
    if i < |disk| - 1 {
      TextAtIs(disk[..|disk| - 1], i);
    }
  }

  /** A short line without breaks or spaces is one chunk. */
  lemma OneChunk(n: nat)
    requires 1 <= n <= 2 * EMBED_BATCH
    ensures Chunks(Letters(n, 'a')) == [Chunk(1, 1, Letters(n, 'a'))]
  {
    hide Strip, Split;
    var text := Letters(n, 'a');
    OneLineOnly(text);
    var lines := TextLines(text);
    assert lines == [text];
    NothingToStrip(text);
    assert WindowEnd(lines, 0) == 1;
    assert Join(lines, 0, 1) == text;
    assert PieceAt(text, 0) == text;
    assert Pieces(text, CHUNK_MAX_CHARS) == [];
    assert Pieces(text, 0) == [text] + [];
    assert ChunksOf(lines, Window(0, 1)) == [Chunk(1, 1, text)];
  }

  lemma OneLineOnly(text: string)
    requires text != "" && forall i :: 0 <= i < |text| ==> text[i] == 'a'
    ensures TextLines(text) == [text]
  {
    NoBreak(text, 0);
    SplitFirst(text);
    assert PlainLines(text) == [text];
    assert DropCr(text) == text;
  }

  lemma {:induction false} NoBreak(text: string, p: nat)
    requires p <= |text| && forall i :: 0 <= i < |text| ==> text[i] == 'a'
    ensures LineEnd(text, '\n', p) == |text|
    decreases |text| - p
  {
    if p < |text| {
      NoBreak(text, p + 1);
    }
  }

  lemma NothingToStrip(text: string)
    requires text != "" && forall i :: 0 <= i < |text| ==> text[i] == 'a'
    ensures Strip(text) == text
  {
    assert !IsSpace('a');
  }

  /** Each row of an index that mirrors the sample disk is the one chunk of its file. */
  lemma SampleRow(t: Tables, sha: string -> string, r: Row)
    requires Mirrors(t, SampleDisk(), sha) && r in t.rows
    ensures 1 <= |r.path| <= 2 * EMBED_BATCH && r.path == Letters(|r.path|, 'p')
    ensures r.chunk.text == Letters(|r.path|, 'a') && |RowsOf(t.rows, r.path)| == 1
  {
    hide Chunks;
    SampleText(r.path);
    OneChunk(|r.path|);
    RowIsIn(t.rows, r);
    assert IndexedAs(t, r.path, sha, TextAt(SampleDisk(), r.path).value);
  }

  lemma {:induction false} RowIsIn(rows: seq<Row>, r: Row)
    requires r in rows
    ensures r.chunk in RowsOf(rows, r.path)
  {
    if r != rows[|rows| - 1] {
      RowIsIn(rows[..|rows| - 1], r);
    }
  }

  lemma {:induction false} TwoRows(rows: seq<Row>, j: nat, k: nat)
    requires j < k < |rows| && rows[j].path == rows[k].path
    ensures |RowsOf(rows, rows[j].path)| >= 2
  {
    var n := |rows| - 1;
    if k < n {
      TwoRows(rows[..n], j, k);
    } else {
      RowIsIn(rows[..n], rows[j]);
    }
  }

  lemma SampleRowsDistinct(t: Tables, sha: string -> string)
    requires Mirrors(t, SampleDisk(), sha)
    ensures Distinct(TextsOf(t.rows))
  {
    hide Mirrors, RowsOf;
    forall j, k | 0 <= j < k < |t.rows| ensures t.rows[j].chunk.text != t.rows[k].chunk.text {
      SampleRow(t, sha, t.rows[j]);
      SampleRow(t, sha, t.rows[k]);
      if t.rows[j].chunk.text == t.rows[k].chunk.text {
        assert |Letters(|t.rows[j].path|, 'a')| == |Letters(|t.rows[k].path|, 'a')|;
        TwoRows(t.rows, j, k);
      }
    }
  }

  /** Every file of the sample disk has its row. */
  lemma SampleHasRow(t: Tables, sha: string -> string, n: nat)
    requires Mirrors(t, SampleDisk(), sha) && 1 <= n <= 2 * EMBED_BATCH
    ensures Letters(n, 'a') in TextsOf(t.rows)
  {
    hide Chunks;
    SampleText(Letters(n, 'p'));
    OneChunk(n);
    assert IndexedAs(t, Letters(n, 'p'), sha, Letters(n, 'a'));
    var r := RowBehind(t.rows, Letters(n, 'p'), Chunk(1, 1, Letters(n, 'a')));
    var i :| 0 <= i < |t.rows| && t.rows[i] == r;
    assert TextsOf(t.rows)[i] == r.chunk.text;
  }

  lemma {:induction false} RowBehind(rows: seq<Row>, path: string, c: Chunk) returns (r: Row)
    requires c in RowsOf(rows, path)
    ensures r in rows && r.path == path && r.chunk == c
  {
    r := rows[|rows| - 1];
    if !(r.path == path && r.chunk == c) {
      r := RowBehind(rows[..|rows| - 1], path, c);
    }
  }

  lemma {:induction false} DistinctSize(texts: seq<string>)
    requires Distinct(texts)
    ensures |set x | x in texts| == |texts|
  {
    if texts != [] {
      var n := |texts| - 1;
      DistinctSize(texts[..n]);
      assert (set x | x in texts) == (set x | x in texts[..n]) + {texts[n]};
    }
  }

  function SampleTexts(): seq<string> {
    seq(2 * EMBED_BATCH, i requires 0 <= i < 2 * EMBED_BATCH => Letters(i + 1, 'a'))
  }

  /** An index that mirrors the sample disk has 128 rows of distinct texts. */
  lemma SampleRowCount(t: Tables, sha: string -> string)
    requires Mirrors(t, SampleDisk(), sha)
    ensures |t.rows| == 2 * EMBED_BATCH && Distinct(TextsOf(t.rows)) && "a" in TextsOf(t.rows)
  {
    hide Mirrors;
    var texts, sample := TextsOf(t.rows), SampleTexts();
    SampleRowsDistinct(t, sha);
    DistinctSize(texts);
    forall j, k | 0 <= j < k < |sample| ensures sample[j] != sample[k] {
      assert |sample[j]| == j + 1 && |sample[k]| == k + 1;
    }
    DistinctSize(sample);
    forall x | x in texts ensures x in sample {
      var i :| 0 <= i < |texts| && texts[i] == x;
      SampleRow(t, sha, t.rows[i]);
      assert sample[|t.rows[i].path| - 1] == x;
    }
    forall x | x in sample ensures x in texts {
      var i :| 0 <= i < |sample| && sample[i] == x;
      SampleHasRow(t, sha, i + 1);
    }
    assert (set x | x in texts) == (set x | x in sample);
    SampleHasRow(t, sha, 1);
    assert Letters(1, 'a') == "a";
  }

  /** Without vectors every row is pending. */
  lemma {:induction false} AllArePending(t: Tables, model: string, n: nat)
    requires n <= |t.rows| && t.vectors == map[]
    ensures Pending(t, model, n) == t.rows[..n]
  {
    if n > 0 {
      AllArePending(t, model, n - 1);
      assert t.rows[..n] == t.rows[..n - 1] + [t.rows[n - 1]];
    }
  }

  /** Whatever tables a first indexing of the sample disk leaves before it embeds, embedding them
      through the miscounting host files some vector under another chunk. */
  lemma MiscountAfterFirstIndexing(t: Tables, sha: string -> string, model: string)
    requires Linked(t) && Mirrors(t, SampleDisk(), sha) && t.vectors == map[]
    ensures Embeds(t, [Miscounting("a")], model) && !TrueVectors(Embedded(t, [Miscounting("a")], model))
  {
    hide Mirrors, Embeds, Embedded, Pending, Distinct;
    SampleRowCount(t, sha);
    AllArePending(t, model, |t.rows|);
    assert t.rows[..|t.rows|] == t.rows;
    MiscountMisfilesVectors(t, model, "a");
  }

  /** And a first indexing of the sample disk does it, with any hash: the new index mirrors the disk,
      and its vectors are not true. */
  method MiscountedIndexing(sha: string -> string, model: string) returns (index: Index)
    ensures Valid(index.Now()) && Mirrors(index.Now(), SampleDisk(), sha) && !TrueVectors(index.Now())
  {
    hide Mirrors, Linked, TrueVectors, Embedded, Embeds, FirstAnswer, GoodHosts, RefreshedFrom;
    index := new Index();
    NewIndexIsValid();
    SampleText("");
    ghost var refreshed := index.IndexRoot(SampleDisk(), false, sha, [Miscounting("a")], model);
    NoVectorsYet(refreshed);
    MirrorsLess(refreshed, index.Now(), sha);
    MiscountAfterFirstIndexing(refreshed, sha, model);
  }

  lemma NewIndexIsValid()
    ensures Valid(Tables(map[], [], map[]))
  {
  }

  lemma MirrorsLess(t: Tables, u: Tables, sha: string -> string)
    requires Mirrors(u, SampleDisk(), sha) && t == u.(vectors := t.vectors)
    ensures Mirrors(t, SampleDisk(), sha)
  {
    hide TextAt, RowsOf, Digest, Chunks, SampleDisk;
    forall p, text ensures IndexedAs(u, p, sha, text) <==> IndexedAs(t, p, sha, text) {
    }
  }

  /** Nothing is carried over from an empty index. */
  lemma NoVectorsYet(t: Tables)
    requires Carried(Tables(map[], [], map[]), t) && Linked(t)
    ensures t.vectors == map[]
  {
    forall i | 0 <= i < |t.rows| ensures t.rows[i].id !in t.vectors {
      assert t.rows[i] in t.rows;
    }
    assert t.vectors.Keys == {};
  }
}
