/** The database migrations: applied in order, one transaction a file, and verified afterwards.

    A run that crashes, or whose statement fails, has committed the transactions of the files before.
  */
module Migrations {
  import opened Json

  /** A file of the migration directory: its name and the characters of its bytes. */
  datatype File = File(name: string, content: string)

  datatype Checksum = Sha256(text: string)

  datatype Db = Db(applied: map<string, Checksum>, executed: seq<string>)

  const EMPTY := Db(map[], [])

  // ---- Reading a file ----

  /** Reading in text mode: every line ends in a line feed. */
  function ReadText(content: string): string {
    if content == [] then []
    else if content[0] != '\r' then [content[0]] + ReadText(content[1..])
    else if |content| > 1 && content[1] == '\n' then ['\n'] + ReadText(content[2..])
    else ['\n'] + ReadText(content[1..])
  }

  lemma {:induction false} ReadTextExact(content: string)
    ensures '\r' !in ReadText(content)
    ensures ReadText(content) == content <==> '\r' !in content
  {
    if content != [] {
      if content[0] != '\r' {
        ReadTextExact(content[1..]);
        assert content == [content[0]] + content[1..];
        assert ([content[0]] + ReadText(content[1..]))[1..] == ReadText(content[1..]);
      } else if |content| > 1 && content[1] == '\n' {
        ReadTextExact(content[2..]);
        assert ReadText(content)[0] == '\n';
      } else {
        ReadTextExact(content[1..]);
        assert ReadText(content)[0] == '\n';
      }
    }
  }

  /** Text without a carriage return is read as it is, and a carriage return, with the line feed behind it if there is one,
      as a line feed. */
  lemma {:induction false} ReadTextBreaks(line: string, rest: string)
    requires '\r' !in line
    ensures ReadText(line) == line
    ensures rest == [] || rest[0] != '\n' ==> ReadText(line + "\r" + rest) == line + "\n" + ReadText(rest)
    ensures ReadText(line + "\r\n" + rest) == line + "\n" + ReadText(rest)
  {
    if line == [] {
      assert line + "\r" + rest == "\r" + rest && ("\r" + rest)[1..] == rest;
      assert line + "\r\n" + rest == "\r\n" + rest && ("\r\n" + rest)[2..] == rest;
    } else {
      ReadTextBreaks(line[1..], rest);
      assert line == [line[0]] + line[1..];
      assert (line + "\r" + rest)[1..] == line[1..] + "\r" + rest;
      assert (line + "\r\n" + rest)[1..] == line[1..] + "\r\n" + rest;
      assert [line[0]] + (line[1..] + "\n" + ReadText(rest)) == line + "\n" + ReadText(rest);
    }
  }

  const STATEMENT_BREAK := "-- statement-break"

  /** The pieces between statement breaks, `piece` being read so far. */
  function Pieces(sql: string, piece: string): seq<string>
    decreases |sql|
  {
    if sql == [] then [piece]
    else if STATEMENT_BREAK <= sql then [piece] + Pieces(sql[|STATEMENT_BREAK|..], [])
    else Pieces(sql[1..], piece + [sql[0]])
  }

  /** The pieces with the breaks between them. */
  function Rejoined(pieces: seq<string>): string
    requires pieces != []
  {
    if |pieces| == 1 then pieces[0] else pieces[0] + "-- statement-break" + Rejoined(pieces[1..])
  }

  /** No break begins in the text before position `n`. */
  predicate NoBreakBefore(s: string, n: nat) {
    forall i | 0 <= i < n && i <= |s| :: !("-- statement-break" <= s[i..])
  }

  /** With the breaks between them the pieces are the text, and none of them holds a break. */
  lemma {:induction false} PiecesExactly(sql: string, piece: string)
    requires NoBreakBefore(piece + sql, |piece|)
    ensures Pieces(sql, piece) != [] && Rejoined(Pieces(sql, piece)) == piece + sql
    ensures forall p | p in Pieces(sql, piece) :: NoBreakBefore(p, |p|)
    decreases |sql|
  {
    if sql == [] {
      assert piece + sql == piece;
    } else if STATEMENT_BREAK <= sql {
      var rest := sql[|STATEMENT_BREAK|..];
      assert [] + rest == rest;
      PiecesExactly(rest, []);
      assert sql == STATEMENT_BREAK + rest;
      var pieces := [piece] + Pieces(rest, []);
      assert pieces[1..] == Pieces(rest, []);
      assert piece + STATEMENT_BREAK + rest == piece + sql;
      NoBreakInside(piece, sql);
    } else {
      var longer := piece + [sql[0]];
      assert longer + sql[1..] == piece + sql;
      assert (piece + sql)[|piece|..] == sql;
      PiecesExactly(sql[1..], longer);
    }
  }

  lemma NoBreakInside(piece: string, sql: string)
    requires NoBreakBefore(piece + sql, |piece|)
    ensures NoBreakBefore(piece, |piece|)
  {
    forall i | 0 <= i < |piece| ensures !("-- statement-break" <= piece[i..]) {
      assert (piece + sql)[i..] == piece[i..] + sql;
    }
  }

  predicate IsSpace(c: char) {
    c in {' ', '\t', '\n', '\r'} || c as int in {11, 12}
  }

  function NotBlank(pieces: seq<string>): seq<string> {
    if pieces == [] then []
    else
      var rest, last := NotBlank(pieces[..|pieces| - 1]), pieces[|pieces| - 1];
      if exists c | c in last :: !IsSpace(c) then rest + [last] else rest
  }

  function Statements(file: File): seq<string> {
    NotBlank(Pieces(ReadText(file.content), []))
  }

  function ChecksumOf(file: File): Checksum {
    Sha256(ReadText(file.content))
  }

  // ---- Applying ----

  /** One file's transaction. */
  function Migrated(db: Db, file: File): Result<Db, string> {
    if file.name !in db.applied then
      Ok(Db(db.applied[file.name := ChecksumOf(file)], db.executed + Statements(file)))
    else if db.applied[file.name] != ChecksumOf(file) then Err(file.name)
    else Ok(db)
  }

  /** All files in order, up to the first that has changed since it was applied. */
  function Run(db: Db, files: seq<File>): (Db, Option<string>)
    decreases |files|
  {
    if files == [] then (db, None)
    else
      match Migrated(db, files[0])
      case Err(name) => (db, Some(name))
      case Ok(next) => Run(next, files[1..])
  }

  /** The files that a run comes to before it is cut short. */
  function Cut(files: seq<File>, cut: nat): seq<File> {
    if cut < |files| then files[..cut] else files
  }

  /** `verify_migrations`: the same names, and the checksums of the bytes. */
  predicate Verifies(db: Db, files: seq<File>) {
    && db.applied.Keys == (set f | f in files :: f.name)
    && forall f | f in files :: db.applied[f.name] == Sha256(f.content)
  }

  class MigrationRunner {
    var db: Db

    constructor ()
      ensures db == EMPTY
    {
      db := EMPTY;
    }

    method Execute(statements: seq<string>)
      modifies this
      ensures db == old(db).(executed := old(db.executed) + statements)
    {
      for i := 0 to |statements|
        invariant db == old(db).(executed := old(db.executed) + statements[..i])
      {
        db := db.(executed := db.executed + [statements[i]]);
        assert statements[..i + 1] == statements[..i] + [statements[i]];
      }
      assert statements[..|statements|] == statements;
    }

    /** A run that is cut after `cut` transactions, if it comes that far. */
    method ApplyMigrations(files: seq<File>, cut: nat) returns (changed: Option<string>)
      modifies this
      ensures (db, changed) == Run(old(db), Cut(files, cut))
    {
      hide Statements;
      var n := |Cut(files, cut)|;
      changed := None;
      assert files[0..n] == Cut(files, cut);
      for i := 0 to n
        invariant Run(old(db), Cut(files, cut)) == Run(db, files[i..n])
      {
        var file := files[i];
        assert files[i..n][0] == file && files[i..n][1..] == files[i + 1..n];
        if file.name in db.applied {
          if db.applied[file.name] != ChecksumOf(file) {
            return Some(file.name);
          }
        } else {
          Execute(Statements(file));
          db := db.(applied := db.applied[file.name := ChecksumOf(file)]);
        }
      }
    }

    method VerifyMigrations(files: seq<File>) returns (ok: bool)
      ensures ok == Verifies(db, files)
      ensures ok <==>
        && (forall name :: name in db.applied <==> exists i | 0 <= i < |files| :: files[i].name == name)
        && forall i | 0 <= i < |files| :: files[i].name in db.applied && db.applied[files[i].name] == Sha256(files[i].content)
    {
      var names: set<string> := {};
      for i := 0 to |files|
        invariant names == set f | f in files[..i] :: f.name
      {
        assert files[..i + 1] == files[..i] + [files[i]];
        names := names + {files[i].name};
      }
      assert files[..|files|] == files;
      if db.applied.Keys != names {
        return false;
      }
      ok := forall f | f in files :: db.applied[f.name] == Sha256(f.content);
    }
  }

  // ---- What any series of runs leaves ----

  predicate NamesDiffer(files: seq<File>) {
    forall i, j | 0 <= i < j < |files| :: files[i].name != files[j].name
  }

  function AllStatements(files: seq<File>): seq<string> {
    if files == [] then [] else AllStatements(files[..|files| - 1]) + Statements(files[|files| - 1])
  }

  /** Exactly these files have been applied, each once and in order. */
  predicate Holds(db: Db, files: seq<File>) {
    && db.executed == AllStatements(files)
    && db.applied.Keys == (set f | f in files :: f.name)
    && forall f | f in files :: f.name in db.applied && db.applied[f.name] == ChecksumOf(f)
  }

  /** Files already applied are passed over. */
  lemma {:induction false} AppliedSkipped(db: Db, files: seq<File>, i: nat)
    requires i <= |files|
    requires forall j | 0 <= j < i :: files[j].name in db.applied && db.applied[files[j].name] == ChecksumOf(files[j])
    ensures Run(db, files) == Run(db, files[i..])
    decreases i
  {
    if i > 0 {
      assert files[1..][i - 1..] == files[i..];
      AppliedSkipped(db, files[1..], i - 1);
    } else {
      assert files[0..] == files;
    }
  }

  /** The first `p` files being applied, a run applies the others. */
  lemma {:induction false} RunApplies(db: Db, files: seq<File>, p: nat)
    requires NamesDiffer(files) && p <= |files| && Holds(db, files[..p])
    ensures Run(db, files[p..]).1.None? && Holds(Run(db, files[p..]).0, files)
    decreases |files| - p
  {
    hide Holds, Migrated;
    if p == |files| {
      assert files[..p] == files;
    } else {
      NextApplied(db, files, p);
      assert files[p..][0] == files[p] && files[p..][1..] == files[p + 1..];
      RunApplies(Migrated(db, files[p]).value, files, p + 1);
    }
  }

  lemma NextApplied(db: Db, files: seq<File>, p: nat)
    requires NamesDiffer(files) && p < |files| && Holds(db, files[..p])
    ensures Migrated(db, files[p]).Ok? && Holds(Migrated(db, files[p]).value, files[..p + 1])
  {
    hide Statements, ChecksumOf;
    var file := files[p];
    assert files[..p + 1] == files[..p] + [file] && files[..p + 1][..p] == files[..p];
    forall f | f in files[..p] ensures f.name != file.name {
    }
  }

  /** A run cut after `cut` files leaves the longer of the two prefixes. */
  lemma CutRun(db: Db, files: seq<File>, p: nat, cut: nat)
    requires NamesDiffer(files) && p <= |files| && cut <= |files| && Holds(db, files[..p])
    ensures Run(db, files[..cut]).1.None?
    ensures Holds(Run(db, files[..cut]).0, files[..if p < cut then cut else p])
  {
    hide Statements, ReadText;
    var done := if p < cut then p else cut;
    forall j | 0 <= j < done
      ensures files[..cut][j].name in db.applied && db.applied[files[..cut][j].name] == ChecksumOf(files[..cut][j])
    {
      assert files[..p][j] in files[..p];
    }
    AppliedSkipped(db, files[..cut], done);
    if p < cut {
      assert files[..cut][..p] == files[..p];
      RunApplies(db, files[..cut], p);
    } else {
      assert files[..cut][done..] == [];
    }
  }

  /** The runs one after the other, run `i` cut after `cuts[i]` files. */
  function Series(db: Db, files: seq<File>, cuts: seq<nat>): Db
    decreases |cuts|
  {
    if cuts == [] then db else Series(Run(db, Cut(files, cuts[0])).0, files, cuts[1..])
  }

  lemma {:induction false} SeriesHolds(db: Db, files: seq<File>, cuts: seq<nat>, p: nat) returns (q: nat)
    requires NamesDiffer(files) && p <= |files| && Holds(db, files[..p])
    ensures p <= q <= |files| && Holds(Series(db, files, cuts), files[..q])
    decreases |cuts|
  {
    hide Run, Holds;
    if cuts == [] {
      q := p;
    } else {
      var cut := |Cut(files, cuts[0])|;
      assert Cut(files, cuts[0]) == files[..cut];
      CutRun(db, files, p, cut);
      q := SeriesHolds(Run(db, Cut(files, cuts[0])).0, files, cuts[1..], if p < cut then cut else p);
    }
  }

  /** Whatever runs were cut short before, the applied files are always a prefix of the directory, and
      a full run ends with every file's statements executed once, in order. */
  lemma MigratesOnce(files: seq<File>, cuts: seq<nat>) returns (q: nat)
    requires NamesDiffer(files)
    ensures q <= |files| && Holds(Series(EMPTY, files, cuts), files[..q])
    ensures Run(Series(EMPTY, files, cuts), files).1.None?
    ensures Holds(Run(Series(EMPTY, files, cuts), files).0, files)
  {
    hide Run, Statements;
    assert files[..0] == [];
    q := SeriesHolds(EMPTY, files, cuts, 0);
    CutRun(Series(EMPTY, files, cuts), files, q, |files|);
    assert files[..|files|] == files;
  }

  /** After a full run the verification succeeds exactly when no file has a carriage return: applying
      sums the text that was read, verifying sums the bytes. */
  lemma VerifiesExactly(db: Db, files: seq<File>)
    requires Holds(db, files)
    ensures Verifies(db, files) <==> forall f | f in files :: '\r' !in f.content
  {
    hide Statements, ReadText;
    forall f | f in files ensures db.applied[f.name] == Sha256(f.content) <==> '\r' !in f.content {
      ReadTextExact(f.content);
    }
  }

  /** A file that changed after it was applied stops every later run before any new statement. */
  lemma ChangedFileStops(db: Db, files: seq<File>, later: seq<File>, p: nat, i: nat)
    requires NamesDiffer(files) && p <= |files| && Holds(db, files[..p])
    requires i < p <= |later| && (forall j | 0 <= j < p :: later[j].name == files[j].name)
    requires ReadText(later[i].content) != ReadText(files[i].content)
    ensures Run(db, later).0 == db && Run(db, later).1.Some?
    ensures exists j | 0 <= j <= i :: Run(db, later).1 == Some(later[j].name)
  {
    hide Statements, ReadText;
    var j := FirstChanged(files, later, i);
    forall k | 0 <= k <= j ensures later[k].name in db.applied && db.applied[later[k].name] == ChecksumOf(files[k]) {
      assert files[..p][k] in files[..p];
    }
    AppliedSkipped(db, later, j);
    assert later[j..][0] == later[j];
  }

  lemma {:induction false} FirstChanged(files: seq<File>, later: seq<File>, i: nat) returns (j: nat)
    requires i < |files| && i < |later| && ReadText(later[i].content) != ReadText(files[i].content)
    ensures j <= i && ReadText(later[j].content) != ReadText(files[j].content)
    ensures forall k | 0 <= k < j :: ReadText(later[k].content) == ReadText(files[k].content)
  {
    hide ReadText;
    j := i;
    if k :| 0 <= k < i && ReadText(later[k].content) != ReadText(files[k].content) {
      j := FirstChanged(files, later, k);
    }
  }
}
