/** Writing and reading back the SHA256SUMS file of a release directory. */
module Checksums {
  import opened Wrappers

  datatype Entry = Entry(name: string, digest: string)

  predicate Hex(c: char) { '0' <= c <= '9' || 'a' <= c <= 'f' }

  predicate IsDigest(s: string) { |s| == 64 && forall c | c in s :: Hex(c) }

  predicate Ascii(s: string) { forall c | c in s :: c as int < 128 }

  /** Code point order. */
  predicate Less(a: string, b: string) {
    b != "" && (a == "" || a[0] < b[0] || (a[0] == b[0] && Less(a[1..], b[1..])))
  }

  /** Distinct names in sorted order. */
  predicate Ascending(es: seq<Entry>) {
    forall i, j | 0 <= i < j < |es| :: es[i].name != es[j].name && !Less(es[j].name, es[i].name)
  }

  function Line(e: Entry): string { e.digest + "  " + e.name }

  function Joined(es: seq<Entry>): string {
    if es == [] then "" else if |es| == 1 then Line(es[0]) else Line(es[0]) + "\n" + Joined(es[1..])
  }

  /** The files of a directory in name order; names outside ASCII cannot be encoded. */
  function WriteChecksums(files: seq<Entry>): Option<string> {
    var text := Joined(files) + "\n";
    if Ascii(text) then Some(text) else None
  }

  /** The ASCII characters that end a line. */
  predicate Separator(c: char) {
    '\U{0A}' <= c <= '\U{0D}' || '\U{1C}' <= c <= '\U{1E}'
  }

  function LineEnd(s: string): (n: nat)
    ensures n <= |s| && (forall i | 0 <= i < n :: !Separator(s[i])) && (n < |s| ==> Separator(s[n]))
  {
    if s == "" || Separator(s[0]) then 0 else 1 + LineEnd(s[1..])
  }

  /** A carriage return and a newline together end one line. */
  function Lines(s: string): seq<string>
    decreases |s|
  {
    if s == "" then []
    else
      var n := LineEnd(s);
      if n == |s| then [s]
      else [s[..n]] + Lines(s[if s[n] == '\r' && n + 1 < |s| && s[n + 1] == '\n' then n + 2 else n + 1..])
  }

  /** A nonempty name that is its own last path component. */
  predicate IsFileName(s: string) { s != "" && '/' !in s && s != "." }

  predicate LineOk(line: string) {
    |line| >= 67 && line[64..66] == "  " && IsDigest(line[..64]) && IsFileName(line[66..])
  }

  function EntryOf(line: string): Entry
    requires |line| >= 67
  {
    Entry(line[66..], line[..64])
  }

  function Entries(lines: seq<string>): seq<Entry>
    requires forall i | 0 <= i < |lines| :: |lines[i]| >= 67
  {
    seq(|lines|, i requires 0 <= i < |lines| => EntryOf(lines[i]))
  }

  ghost predicate Readable(lines: seq<string>) {
    (forall i | 0 <= i < |lines| :: LineOk(lines[i])) && Ascending(Entries(lines))
  }

  lemma NoDuplicates(lines: seq<string>, j: nat, k: nat)
    requires j < k < |lines|
    ensures Readable(lines) ==> LineOk(lines[j]) && LineOk(lines[k]) && EntryOf(lines[j]).name != EntryOf(lines[k]).name
  {
    if Readable(lines) {
      assert Entries(lines)[j] == EntryOf(lines[j]) && Entries(lines)[k] == EntryOf(lines[k]);
    }
  }

  /** The entries in file order, or a refusal. */
  method ReadChecksums(text: string) returns (r: Option<seq<Entry>>)
    ensures r.Some? <==> Ascii(text) && Readable(Lines(text))
    ensures r.Some? ==> r.value == Entries(Lines(text))
  {
    if !Ascii(text) {
      return None;
    }
    var lines := Lines(text);
    var checksums: seq<Entry> := [];
    var i := 0;
    while i < |lines|
      invariant i <= |lines|
      invariant forall k | 0 <= k < i :: LineOk(lines[k])
      invariant checksums == Entries(lines[..i])
      invariant forall j, k | 0 <= j < k < i :: checksums[j].name != checksums[k].name
    {
      var line := lines[i];
      if |line| < 67 || line[64..66] != "  " {
        return None;
      }
      var digest, filename := line[..64], line[66..];
      if !IsDigest(digest) || !IsFileName(filename) {
        return None;
      }
      if exists k | 0 <= k < i :: checksums[k].name == filename {
        ghost var k :| 0 <= k < i && checksums[k].name == filename;
        NoDuplicates(lines, k, i);
        return None;
      }
      checksums := checksums + [Entry(filename, digest)];
      i := i + 1;
    }
    assert lines[..i] == lines;
    if exists j, k | 0 <= j < k < |checksums| :: Less(checksums[k].name, checksums[j].name) {
      return None;
    }
    return Some(checksums);
  }

  /** A name that survives: a file name without line separators. Being ASCII is already needed to
      write it. */
  predicate Clean(name: string) {
    IsFileName(name) && forall c | c in name :: !Separator(c)
  }

  function LineSeq(es: seq<Entry>): seq<string> { seq(|es|, i requires 0 <= i < |es| => Line(es[i])) }

  lemma {:induction false} LineEndIs(w: string, rest: string)
    requires (forall c | c in w :: !Separator(c)) && (rest == "" || Separator(rest[0]))
    ensures LineEnd(w + rest) == |w|
    decreases |w|
  {
    if w == "" {
      assert w + rest == rest;
    } else {
      assert (w + rest)[0] == w[0] && w[0] in w;
      assert (w + rest)[1..] == w[1..] + rest;
      LineEndIs(w[1..], rest);
    }
  }

  lemma LineThen(w: string, rest: string)
    requires forall c | c in w :: !Separator(c)
    ensures Lines(w + "\n" + rest) == [w] + Lines(rest)
  {
    var s := w + "\n" + rest;
    assert s == w + ("\n" + rest);
    LineEndIs(w, "\n" + rest);
    assert s[|w|] == '\n' && s[..|w|] == w && s[|w| + 1..] == rest;
  }

  /** The lines written are the lines read when no name ends a line. */
  lemma {:induction false} WrittenLines(es: seq<Entry>)
    requires es != [] && forall e | e in es :: IsDigest(e.digest) && Clean(e.name)
    ensures Lines(Joined(es) + "\n") == LineSeq(es)
    decreases |es|
  {
    hide Line, Lines, Clean, IsDigest, Separator;
    var line := Line(es[0]);
    assert es[0] in es;
    CleanLine(es[0]);
    if |es| == 1 {
      LineThen(line, "");
      NoLines();
      assert line + "\n" + "" == line + "\n";
      assert LineSeq(es) == [line];
    } else {
      WrittenLines(es[1..]);
      LineThen(line, Joined(es[1..]) + "\n");
      assert Joined(es) + "\n" == line + "\n" + (Joined(es[1..]) + "\n");
      assert LineSeq(es) == [line] + LineSeq(es[1..]);
    }
  }

  lemma NoLines()
    ensures Lines("") == []
  {
  }

  lemma CleanLine(e: Entry)
    requires IsDigest(e.digest) && Clean(e.name)
    ensures forall c | c in Line(e) :: !Separator(c)
  {
    assert forall c | c in Line(e) :: c in e.digest || c == ' ' || c in e.name;
  }

  /** No line holds a separator. */
  lemma {:induction false} LinesAreWhole(s: string)
    ensures forall i | 0 <= i < |Lines(s)| :: forall c | c in Lines(s)[i] :: !Separator(c)
    decreases |s|
  {
    if s != "" {
      var n := LineEnd(s);
      if n < |s| {
        LinesAreWhole(s[if s[n] == '\r' && n + 1 < |s| && s[n + 1] == '\n' then n + 2 else n + 1..]);
      }
    }
  }

  lemma LineReadsBack(e: Entry)
    requires IsDigest(e.digest) && e.name != ""
    ensures |Line(e)| >= 67 && EntryOf(Line(e)) == e
    ensures LineOk(Line(e)) <==> IsFileName(e.name)
  {
    var line := Line(e);
    assert line[64..66] == "  " && line[..64] == e.digest && line[66..] == e.name;
  }

  /** Reading what was written gives the same entries exactly when there is at least one file and
      every name is clean. An empty directory writes a single newline, which is refused. */
  lemma ReadsBackExactlyClean(files: seq<Entry>)
    requires Ascending(files) && forall e | e in files :: IsDigest(e.digest)
    requires WriteChecksums(files).Some?
    ensures var lines := Lines(WriteChecksums(files).value);
      (Readable(lines) && Entries(lines) == files) <==> files != [] && forall e | e in files :: Clean(e.name)
  {
    var text := WriteChecksums(files).value;
    var lines := Lines(text);
    if files == [] {
      assert text == "" + "\n" + "";
      LineThen("", "");
      assert !LineOk(lines[0]);
    }
    if files != [] && forall e | e in files :: Clean(e.name) {
      WrittenLines(files);
      forall i | 0 <= i < |lines| ensures LineOk(lines[i]) && EntryOf(lines[i]) == files[i] {
        assert files[i] in files;
        LineReadsBack(files[i]);
      }
      assert Entries(lines) == files;
    }
    if Readable(lines) && Entries(lines) == files {
      LinesAreWhole(text);
      forall e | e in files ensures Clean(e.name) {
        var i :| 0 <= i < |files| && files[i] == e;
        assert EntryOf(lines[i]) == e && LineOk(lines[i]);
        assert forall c | c in e.name :: c in lines[i];
      }
    }
  }
}
