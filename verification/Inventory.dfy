/** The SHA256SUMS inventory: printed by the writer, parsed and compared by the validator. */
module Inventory {
  import opened Common
  import opened Sorting
  import opened Strings

  type Name = string

  /** Digests of the regular files, by name. */
  type Hashes = map<Name, string>

  const SUMS: Name := "SHA256SUMS"
  const MANIFEST: Name := "manifest.json"
  const MAX_BUNDLE_ENTRIES: nat := 1024

  // ----- Lines -----

  /** Characters at which Python's `splitlines` breaks ASCII text. */
  predicate IsBreak(c: char) {
    c == '\n' || c == '\r' || c == '\U{000B}' || c == '\U{000C}' || '\U{001C}' <= c <= '\U{001E}'
  }

  predicate Unbroken(s: string) {
    forall i :: 0 <= i < |s| ==> !IsBreak(s[i])
  }

  function FirstBreak(s: string): (k: nat)
    ensures k <= |s| && Unbroken(s[..k]) && (k < |s| ==> IsBreak(s[k]))
  {
    if s == [] || IsBreak(s[0]) then 0
    else
      var k := FirstBreak(s[1..]);
      assert s[..k + 1] == [s[0]] + s[1..][..k];
      1 + k
  }

  /** The width of the break at position `k`: CR LF counts as one. */
  function BreakWidth(s: string, k: nat): (w: nat)
    requires k < |s|
    ensures 1 <= w <= |s| - k
  {
    if s[k] == '\r' && k + 1 < |s| && s[k + 1] == '\n' then 2 else 1
  }

  function SplitLines(s: string): seq<string>
    decreases |s|
  {
    if s == [] then []
    else
      var k := FirstBreak(s);
      if k == |s| then [s] else [s[..k]] + SplitLines(s[k + BreakWidth(s, k)..])
  }

  /** No line feed, vertical tab, form feed, carriage return, or file, group or record separator. */
  lemma UnbrokenByCode(s: string)
    ensures Unbroken(s) <==>
      forall i :: 0 <= i < |s| ==> !(10 <= s[i] as int <= 13 || 28 <= s[i] as int <= 30)
  {
    assert forall i :: 0 <= i < |s| ==> (IsBreak(s[i]) <==> 10 <= s[i] as int <= 13 || 28 <= s[i] as int <= 30);
  }

  /** The text is these lines, each ended by one break, CR LF being one; the last may end with the text. */
  ghost predicate IsSplit(s: string, lines: seq<string>)
    decreases |lines|
  {
    if lines == [] then s == []
    else
      var n := |lines[0]|;
      && Unbroken(lines[0]) && lines[0] <= s
      && (if n == |s| then n > 0 && |lines| == 1
          else
            && !Unbroken([s[n]])
            && IsSplit(s[n + if n + 1 < |s| && s[n] == '\r' && s[n + 1] == '\n' then 2 else 1..], lines[1..]))
  }

  lemma BrokenAt(s: string, k: nat)
    requires k < |s| && IsBreak(s[k])
    ensures !Unbroken([s[k]])
  {
    assert [s[k]][0] == s[k];
  }

  lemma {:induction false} LinesSplit(s: string)
    ensures IsSplit(s, SplitLines(s))
    decreases |s|
  {
    if s != [] {
      var k := FirstBreak(s);
      if k == |s| {
        assert s[..k] == s;
      } else {
        var rest := s[k + BreakWidth(s, k)..];
        LinesSplit(rest);
        BrokenAt(s, k);
        assert ([s[..k]] + SplitLines(rest))[1..] == SplitLines(rest);
      }
    }
  }

  lemma {:induction false} LinesAreUnbroken(s: string)
    ensures forall line :: line in SplitLines(s) ==> Unbroken(line)
    decreases |s|
  {
    if s != [] {
      var k := FirstBreak(s);
      if k == |s| {
        assert s[..k] == s;
      } else {
        LinesAreUnbroken(s[k + BreakWidth(s, k)..]);
      }
    }
  }

  lemma {:induction false} FirstBreakAfter(line: string, rest: string)
    requires Unbroken(line) && rest != [] && IsBreak(rest[0])
    ensures FirstBreak(line + rest) == |line|
  {
    if line == [] {
      assert line + rest == rest;
    } else {
      assert (line + rest)[1..] == line[1..] + rest;
      FirstBreakAfter(line[1..], rest);
    }
  }

  lemma SplitFirst(line: string, rest: string)
    requires Unbroken(line)
    ensures SplitLines(line + "\n" + rest) == [line] + SplitLines(rest)
  {
    var s := line + "\n" + rest;
    assert s == line + ("\n" + rest);
    FirstBreakAfter(line, "\n" + rest);
    assert s[|line|] == '\n' && s[..|line|] == line && s[|line| + 1..] == rest;
  }

  // ----- One line -----

  predicate IsHex(c: char) {
    '0' <= c <= '9' || 'a' <= c <= 'f'
  }

  predicate IsDigest(s: string) {
    |s| == 64 && forall i :: 0 <= i < |s| ==> IsHex(s[i])
  }

  predicate IsSafeName(name: string) {
    name != "" && name != "." && name != ".." && '/' !in name && '\\' !in name && '\0' !in name
  }

  /** Where the first two-space separator starts, or the length if there is none. */
  function FirstGap(s: string): (k: nat)
    ensures k <= |s| && (k < |s| ==> k + 1 < |s| && s[k] == ' ' && s[k + 1] == ' ')
  {
    if |s| < 2 then |s|
    else if s[0] == ' ' && s[1] == ' ' then 0
    else 1 + FirstGap(s[1..])
  }

  function Line(name: Name, digest: string): string {
    digest + "  " + name
  }

  datatype Listed = Listed(name: Name, digest: string)

  /** One line of the inventory, if it is well formed and does not list the inventory itself. */
  function ParseLine(line: string): Option<Listed> {
    var k := FirstGap(line);
    if k == |line| || !IsDigest(line[..k]) || !IsSafeName(line[k + 2..]) || line[k + 2..] == SUMS then None
    else Some(Listed(line[k + 2..], line[..k]))
  }

  lemma {:induction false} GapAfter(word: string, rest: string)
    requires forall i :: 0 <= i < |word| ==> word[i] != ' '
    requires |rest| >= 2 && rest[0] == ' ' && rest[1] == ' '
    ensures FirstGap(word + rest) == |word|
  {
    if word == [] {
      assert word + rest == rest;
    } else {
      assert (word + rest)[1..] == word[1..] + rest;
      GapAfter(word[1..], rest);
    }
  }

  lemma ParsePrintedLine(name: Name, digest: string)
    requires IsDigest(digest) && IsSafeName(name) && name != SUMS
    ensures ParseLine(Line(name, digest)) == Some(Listed(name, digest))
  {
    var line := Line(name, digest);
    assert line == digest + ("  " + name);
    forall i | 0 <= i < |digest| ensures digest[i] != ' ' {
      assert IsHex(digest[i]);
    }
    GapAfter(digest, "  " + name);
    assert line[..64] == digest && line[66..] == name;
  }

  lemma ParsedNameUnbroken(line: string)
    requires Unbroken(line) && ParseLine(line).Some?
    ensures Unbroken(ParseLine(line).value.name)
  {
  }

  /** A line of 64 lower-case hexadecimal digits, two spaces and the name of an entry other than the inventory. */
  ghost predicate IsEntry(line: string, name: Name, digest: string) {
    && |digest| == 64 && (forall c :: c in digest ==> '0' <= c <= '9' || 'a' <= c <= 'f')
    && (forall c :: c in name ==> c != '/' && c != '\\' && c as int != 0)
    && name != "" && name != "." && name != ".." && name != "SHA256SUMS"
    && line == digest + "  " + name
  }

  /** Exactly such lines are read, as the name and digest they hold. */
  lemma LinesRead(line: string, name: Name, digest: string)
    ensures ParseLine(line) == Some(Listed(name, digest)) <==> IsEntry(line, name, digest)
  {
    if IsEntry(line, name, digest) {
      assert line == Line(name, digest);
      assert forall i :: 0 <= i < |digest| ==> digest[i] in digest;
      assert '/' !in name && '\\' !in name && '\0' !in name;
      ParsePrintedLine(name, digest);
    }
    if ParseLine(line) == Some(Listed(name, digest)) {
      var k := FirstGap(line);
      assert line == line[..k] + "  " + line[k + 2..];
      assert forall c :: c in digest ==> IsHex(c);
    }
  }

  // ----- The whole inventory -----

  /** The listing a sequence of lines gives, if every line is well formed and names a new file. */
  function ParseLines(lines: seq<string>): Option<Hashes> {
    if lines == [] then Some(map[])
    else
      var before, last := ParseLines(lines[..|lines| - 1]), ParseLine(lines[|lines| - 1]);
      if before.None? || last.None? || last.value.name in before.value then None
      else Some(before.value[last.value.name := last.value.digest])
  }

  function Parse(text: string): Option<Hashes> {
    ParseLines(SplitLines(text))
  }

  function Print(names: seq<Name>, hashes: Hashes): string
    requires forall n :: n in names ==> n in hashes
  {
    if names == [] then "" else Line(names[0], hashes[names[0]]) + "\n" + Print(names[1..], hashes)
  }

  function PrintedLines(names: seq<Name>, hashes: Hashes): (lines: seq<string>)
    requires forall n :: n in names ==> n in hashes
    ensures |lines| == |names| && forall i :: 0 <= i < |lines| ==> lines[i] == Line(names[i], hashes[names[i]])
  {
    if names == [] then [] else [Line(names[0], hashes[names[0]])] + PrintedLines(names[1..], hashes)
  }

  /** What hashing a bundle's files gives: proper digests, never the inventory's own. */
  ghost predicate AreDigests(hashes: Hashes) {
    forall n :: n in hashes ==> IsDigest(hashes[n]) && n != SUMS
  }

  ghost predicate AllSafe(hashes: Hashes) {
    forall n :: n in hashes ==> IsSafeName(n)
  }

  /** Digests under safe names. */
  ghost predicate IsInventory(hashes: Hashes) {
    AreDigests(hashes) && AllSafe(hashes)
  }

  ghost predicate AllUnbroken(hashes: Hashes) {
    forall n :: n in hashes ==> Unbroken(n)
  }

  lemma LineUnbroken(name: Name, digest: string)
    requires Unbroken(name) && IsDigest(digest)
    ensures Unbroken(Line(name, digest))
  {
    var line := Line(name, digest);
    forall i | 0 <= i < |line| ensures !IsBreak(line[i]) {
      if i < 64 {
        assert line[i] == digest[i] && IsHex(digest[i]);
      } else if i >= 66 {
        assert line[i] == name[i - 66];
      }
    }
  }

  lemma {:induction false} PrintSplits(names: seq<Name>, hashes: Hashes)
    requires AreDigests(hashes) && AllUnbroken(hashes) && forall n :: n in names ==> n in hashes
    ensures SplitLines(Print(names, hashes)) == PrintedLines(names, hashes)
  {
    if names != [] {
      assert names[0] in names;
      LineUnbroken(names[0], hashes[names[0]]);
      SplitFirst(Line(names[0], hashes[names[0]]), Print(names[1..], hashes));
      PrintSplits(names[1..], hashes);
    }
  }

  function Restrict(hashes: Hashes, names: seq<Name>): Hashes {
    map n | n in names && n in hashes :: hashes[n]
  }

  lemma RestrictSnoc(hashes: Hashes, names: seq<Name>, n: Name)
    requires n in hashes
    ensures Restrict(hashes, names + [n]) == Restrict(hashes, names)[n := hashes[n]]
  {
  }

  lemma ParseSnoc(lines: seq<string>, line: string, listed: Hashes, last: Listed)
    requires ParseLines(lines) == Some(listed) && ParseLine(line) == Some(last) && last.name !in listed
    ensures ParseLines(lines + [line]) == Some(listed[last.name := last.digest])
  {
    assert (lines + [line])[..|lines|] == lines;
  }

  lemma PrintedSnoc(names: seq<Name>, n: Name, hashes: Hashes)
    requires n in hashes && forall x :: x in names ==> x in hashes
    ensures PrintedLines(names + [n], hashes) == PrintedLines(names, hashes) + [Line(n, hashes[n])]
  {
  }

  lemma {:induction false} PrintedParse(names: seq<Name>, hashes: Hashes)
    requires IsInventory(hashes) && Distinct(names) && forall n :: n in names ==> n in hashes
    ensures ParseLines(PrintedLines(names, hashes)) == Some(Restrict(hashes, names))
  {
    if names != [] {
      var front, n := names[..|names| - 1], names[|names| - 1];
      assert names == front + [n];
      assert n !in front;
      PrintedParse(front, hashes);
      PrintedSnoc(front, n, hashes);
      ParsePrintedLine(n, hashes[n]);
      ParseSnoc(PrintedLines(front, hashes), Line(n, hashes[n]), Restrict(hashes, front), Listed(n, hashes[n]));
      RestrictSnoc(hashes, front, n);
    }
  }

  lemma UnbrokenRoundTrips(names: seq<Name>, hashes: Hashes)
    requires IsInventory(hashes) && Distinct(names) && forall n :: n in names <==> n in hashes
    requires AllUnbroken(hashes)
    ensures Parse(Print(names, hashes)) == Some(hashes)
  {
    PrintSplits(names, hashes);
    PrintedParse(names, hashes);
    assert Restrict(hashes, names) == hashes;
  }

  /** Whatever the text, no parsed name contains a line break. */
  lemma ParsedIsUnbroken(text: string)
    requires Parse(text).Some?
    ensures AllUnbroken(Parse(text).value)
  {
    LinesAreUnbroken(text);
    ParsedNamesUnbroken(SplitLines(text));
  }

  lemma {:induction false} ParsedNamesUnbroken(lines: seq<string>)
    requires ParseLines(lines).Some? && forall line :: line in lines ==> Unbroken(line)
    ensures AllUnbroken(ParseLines(lines).value)
  {
    if lines != [] {
      assert lines[|lines| - 1] in lines;
      forall line | line in lines[..|lines| - 1] ensures line in lines {}
      ParsedNamesUnbroken(lines[..|lines| - 1]);
      ParsedNameUnbroken(lines[|lines| - 1]);
    }
  }

  /** Whatever the text, what it parses to has proper digests under safe names. */
  lemma {:induction false} ParsedIsInventory(lines: seq<string>)
    requires ParseLines(lines).Some?
    ensures IsInventory(ParseLines(lines).value)
  {
    if lines != [] {
      ParsedIsInventory(lines[..|lines| - 1]);
    }
  }

  /**
    * Printing any listing of the files and parsing it back gives the same digests exactly when every
    * file name is safe and free of line-break characters.
    */
  lemma PrintParseRoundTrip(names: seq<Name>, hashes: Hashes)
    requires AreDigests(hashes) && Distinct(names) && forall n :: n in names <==> n in hashes
    ensures Parse(Print(names, hashes)) == Some(hashes) <==> AllUnbroken(hashes) && AllSafe(hashes)
  {
    if AllUnbroken(hashes) && AllSafe(hashes) {
      UnbrokenRoundTrips(names, hashes);
    }
    if Parse(Print(names, hashes)).Some? {
      ParsedIsUnbroken(Print(names, hashes));
      ParsedIsInventory(SplitLines(Print(names, hashes)));
    }
  }

  // ----- The writer and the validator -----

  predicate IsAscii(s: string) {
    forall i :: 0 <= i < |s| ==> s[i] < '\U{0080}'
  }

  predicate AllAscii(hashes: Hashes) {
    forall n :: n in hashes ==> IsAscii(n)
  }

  lemma LineIsAscii(name: Name, digest: string)
    requires IsAscii(name) && IsDigest(digest)
    ensures IsAscii(Line(name, digest) + "\n")
  {
    var line := Line(name, digest) + "\n";
    forall i | 0 <= i < |line| ensures line[i] < '\U{0080}' {
      if i < 64 {
        assert line[i] == digest[i] && IsHex(digest[i]);
      } else if 66 <= i < |line| - 1 {
        assert line[i] == name[i - 66];
      }
    }
  }

  lemma {:induction false} PrintIsAscii(names: seq<Name>, hashes: Hashes)
    requires AreDigests(hashes) && AllAscii(hashes) && forall n :: n in names ==> n in hashes
    ensures IsAscii(Print(names, hashes))
  {
    if names != [] {
      LineIsAscii(names[0], hashes[names[0]]);
      PrintIsAscii(names[1..], hashes);
    }
  }

  /** The text is one line per name, in this order: the digest, two spaces, the name, a line feed. */
  ghost predicate IsListing(text: string, names: seq<Name>, hashes: Hashes) {
    if names == [] then text == ""
    else
      var end := 66 + |names[0]|;
      && names[0] in hashes && end < |text|
      && text[..64] == hashes[names[0]] && text[64] == text[65] == ' ' && text[66..end] == names[0]
      && text[end] == '\n' && IsListing(text[end + 1..], names[1..], hashes)
  }

  lemma {:induction false} PrintedIsListing(names: seq<Name>, hashes: Hashes)
    requires AreDigests(hashes) && forall n :: n in names ==> n in hashes
    ensures IsListing(Print(names, hashes), names, hashes)
  {
    if names != [] {
      var n, rest := names[0], Print(names[1..], hashes);
      assert Print(names, hashes) == hashes[n] + "  " + n + "\n" + rest;
      assert n in names && |hashes[n]| == 64;
      PrintedIsListing(names[1..], hashes);
      assert Print(names, hashes)[66 + |n| + 1..] == rest;
    }
  }

  /** All names, each once, in ascending text order. */
  ghost predicate Enumerates(names: seq<Name>, hashes: Hashes) {
    && Distinct(names) && (forall n :: n in names <==> n in hashes)
    && (forall i, j :: 0 <= i < j < |names| ==> LexLe(names[i], names[j]))
  }

  /** The sorted inventory that sealing a bundle prints; only ASCII can be written. */
  method PrintInventory(hashes: Hashes) returns (text: Option<string>)
    requires AreDigests(hashes)
    ensures text.Some? <==> AllAscii(hashes)
    ensures text.Some? ==> IsAscii(text.value)
    ensures text.Some? ==> exists names :: Enumerates(names, hashes) && IsListing(text.value, names, hashes)
    ensures text.Some? ==> (Parse(text.value) == Some(hashes) <==> AllUnbroken(hashes) && AllSafe(hashes))
  {
    TextOrderIsTotal();
    var names := SortedList(hashes.Keys, TextOrder());
    PrintParseRoundTrip(names, hashes);
    if !AllAscii(hashes) {
      return None;
    }
    PrintIsAscii(names, hashes);
    PrintedIsListing(names, hashes);
    forall i, j | 0 <= i < j < |names| ensures LexLe(names[i], names[j]) {
      assert TextOrder()(names[i], names[j]);
    }
    assert Enumerates(names, hashes);
    return Some(Print(names, hashes));
  }

  datatype InventoryError =
    | NotAscii | Empty | BadLine | ListsItself | Duplicate
    | TooMany | Absent | ChecksumMismatch | Unlisted | MissingCore
    | EvidenceMissing | EvidenceExtra | UnsafeName | BadDigest | EvidenceMismatch

  const CORE: set<Name> := {MANIFEST, "packets.csv", "events.jsonl"}

  /** The lines so far are well formed, name files that exist and give their digests. */
  ghost predicate Agrees(lines: seq<string>, hashes: Hashes) {
    ParseLines(lines).Some? && ParseLines(lines).value.Keys <= hashes.Keys
    && forall n :: n in ParseLines(lines).value ==> ParseLines(lines).value[n] == hashes[n]
  }

  lemma AgreesPrefix(lines: seq<string>, line: string, hashes: Hashes)
    ensures Agrees(lines + [line], hashes) <==>
      && Agrees(lines, hashes)
      && ParseLine(line).Some? && ParseLine(line).value.name !in ParseLines(lines).value
      && ParseLine(line).value.name in hashes && hashes[ParseLine(line).value.name] == ParseLine(line).value.digest
  {
    assert (lines + [line])[..|lines|] == lines;
    if Agrees(lines + [line], hashes) {
      var before, after := ParseLines(lines).value, ParseLines(lines + [line]).value;
      forall n | n in before ensures n in hashes && before[n] == hashes[n] {
        assert n in after && after[n] == before[n];
      }
      assert ParseLine(line).value.name in after;
    }
  }

  lemma {:induction false} AgreesEarlier(lines: seq<string>, i: nat, hashes: Hashes)
    requires i <= |lines| && Agrees(lines, hashes)
    ensures Agrees(lines[..i], hashes)
    decreases |lines|
  {
    if i == |lines| {
      assert lines[..i] == lines;
    } else {
      var n := |lines| - 1;
      assert lines == lines[..n] + [lines[n]] && lines[..n][..i] == lines[..i];
      AgreesPrefix(lines[..n], lines[n], hashes);
      AgreesEarlier(lines[..n], i, hashes);
    }
  }

  /** The line names a new file and gives its digest. */
  predicate LineFits(line: string, listed: set<Name>, hashes: Hashes) {
    var p := ParseLine(line);
    p.Some? && p.value.name !in listed && p.value.name in hashes && hashes[p.value.name] == p.value.digest
  }

  /** One line against the files and the names listed so far. */
  method CheckLine(line: string, listed: set<Name>, hashes: Hashes)
    returns (e: Option<InventoryError>, name: Option<Name>)
    ensures e.None? ==> LineFits(line, listed, hashes) && name == Some(ParseLine(line).value.name)
    ensures e.Some? ==> !LineFits(line, listed, hashes) || |listed| >= MAX_BUNDLE_ENTRIES
    ensures e == Some(TooMany) ==> |listed| >= MAX_BUNDLE_ENTRIES
  {
    var k := FirstGap(line);
    if k == |line| || !IsDigest(line[..k]) || !IsSafeName(line[k + 2..]) {
      return Some(BadLine), None;
    }
    var expected, file := line[..k], line[k + 2..];
    if file == SUMS {
      return Some(ListsItself), None;
    }
    if file in listed {
      return Some(Duplicate), None;
    }
    if |listed| >= MAX_BUNDLE_ENTRIES {
      return Some(TooMany), None;
    }
    if file !in hashes {
      return Some(Absent), Some(file);
    }
    return if hashes[file] == expected then None else Some(ChecksumMismatch), Some(file);
  }

  /** Errors are collected, not raised; only an overlong listing stops the scan. */
  method CheckLines(lines: seq<string>, hashes: Hashes) returns (errors: seq<InventoryError>, listed: set<Name>)
    requires |hashes| < MAX_BUNDLE_ENTRIES
    ensures errors == [] <==> Agrees(lines, hashes)
    ensures errors == [] ==> listed == ParseLines(lines).value.Keys
  {
    errors, listed := [], {};
    for i := 0 to |lines|
      invariant errors == [] <==> Agrees(lines[..i], hashes)
      invariant errors == [] ==> listed == ParseLines(lines[..i]).value.Keys
    {
      assert lines[..i + 1] == lines[..i] + [lines[i]];
      assert lines[..i + 1][..i] == lines[..i];
      AgreesPrefix(lines[..i], lines[i], hashes);
      var e, name := CheckLine(lines[i], listed, hashes);
      if errors == [] {
        SubsetSize(listed, hashes.Keys);
      }
      if e == Some(TooMany) {
        if Agrees(lines, hashes) {
          AgreesEarlier(lines, i, hashes);
        }
        return errors + [TooMany], listed;
      }
      if e.Some? {
        errors := errors + [e.value];
      }
      if name.Some? {
        listed := listed + {name.value};
      }
    }
    assert lines[..|lines|] == lines;
  }

  lemma AgreesFully(lines: seq<string>, hashes: Hashes)
    ensures Agrees(lines, hashes) && hashes.Keys <= ParseLines(lines).value.Keys <==> ParseLines(lines) == Some(hashes)
  {
    if Agrees(lines, hashes) && hashes.Keys <= ParseLines(lines).value.Keys {
      assert ParseLines(lines).value == hashes;
    }
  }

  /** A bundle's inventory is valid exactly when it is ASCII and parses to the digests of the files there are. */
  method ValidateInventory(hashes: Hashes, text: string) returns (errors: seq<InventoryError>)
    requires |hashes| < MAX_BUNDLE_ENTRIES
    ensures errors == [] <==> IsAscii(text) && Parse(text) == Some(hashes) && CORE <= hashes.Keys
  {
    if !IsAscii(text) {
      return [NotAscii];
    }
    var lines := SplitLines(text);
    AgreesFully(lines, hashes);
    var listed: set<Name>;
    errors, listed := CheckLines(lines, hashes);
    if lines == [] {
      errors := errors + [Empty];
    }
    if !(hashes.Keys <= listed) {
      errors := errors + [Unlisted];
    }
    if !(listed <= hashes.Keys) {
      errors := errors + [Absent];
    }
    if !(CORE <= hashes.Keys) {
      errors := errors + [MissingCore];
    }
    if lines == [] {
      assert MANIFEST in CORE;
      assert ParseLines(lines).value == map[];
    }
  }

  predicate EvidenceFits(name: Name, digest: string, expected: Hashes) {
    IsSafeName(name) && IsDigest(digest) && (name in expected ==> digest == expected[name])
  }

  method CheckEvidence(declared: Hashes, expected: Hashes) returns (errors: seq<InventoryError>)
    ensures errors == [] <==> forall n :: n in declared ==> EvidenceFits(n, declared[n], expected)
  {
    errors := [];
    var rest := declared.Keys;
    while rest != {}
      invariant rest <= declared.Keys
      invariant errors == [] <==> forall n :: n in declared && n !in rest ==> EvidenceFits(n, declared[n], expected)
      decreases |rest|
    {
      var n :| n in rest;
      rest := rest - {n};
      if !IsSafeName(n) {
        errors := errors + [UnsafeName];
      } else if !IsDigest(declared[n]) {
        errors := errors + [BadDigest];
      } else if n in expected && declared[n] != expected[n] {
        errors := errors + [EvidenceMismatch];
      }
    }
  }

  lemma FittingEvidence(declared: Hashes, expected: Hashes)
    requires IsInventory(expected)
    ensures declared.Keys == expected.Keys && (forall n :: n in declared ==> EvidenceFits(n, declared[n], expected))
      <==> declared == expected
  {
  }

  /** The evidence map of the manifest must be the digests of every other file. */
  method ReconcileEvidence(declared: Hashes, hashes: Hashes) returns (errors: seq<InventoryError>)
    requires IsInventory(hashes)
    ensures errors == [] <==> declared == hashes - {MANIFEST}
  {
    var expected := hashes - {MANIFEST};
    FittingEvidence(declared, expected);
    errors := CheckEvidence(declared, expected);
    if !(expected.Keys <= declared.Keys) {
      errors := errors + [EvidenceMissing];
    }
    if !(declared.Keys <= expected.Keys) {
      errors := errors + [EvidenceExtra];
    }
  }
}
