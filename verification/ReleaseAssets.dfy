/** Flat release assets: the checksums file format, and preparing and verifying
    one tier's directory (scripts/verify-release-assets.py). */
module ReleaseAssets {
  import opened Strings
  import opened Wrappers
  import opened ReleaseNames

  // ----- The checksums file -----

  /** Characters at which `str.splitlines` ends a line. */
  predicate IsLineEnd(c: char) {
    var n := c as int;
    10 <= n <= 13 || 0x1C <= n <= 0x1E || n == 0x85 || n == 0x2028 || n == 0x2029
  }

  predicate IsHex(c: char) {
    '0' <= c <= '9' || 'a' <= c <= 'f'
  }

  predicate IsDigest(d: string) {
    |d| == 64 && forall c :: c in d ==> IsHex(c)
  }

  /** `splitlines` of `line + s`, where `line` holds no line end. */
  function SplitLines(s: string, line: string): seq<string>
    decreases |s|
  {
    if s == "" then (if line == "" then [] else [line])
    else if |s| >= 2 && s[0] == '\r' && s[1] == '\n' then [line] + SplitLines(s[2..], "")
    else if IsLineEnd(s[0]) then [line] + SplitLines(s[1..], "")
    else SplitLines(s[1..], line + [s[0]])
  }

  /** `line.split("  ", 1)` when it yields two parts; `head` was scanned already. */
  function SplitOnce(s: string, head: string): Option<(string, string)>
    decreases |s|
  {
    if |s| < 2 then None
    else if s[0] == ' ' && s[1] == ' ' then Some((head, s[2..]))
    else SplitOnce(s[1..], head + [s[0]])
  }

  datatype ChecksumError = InvalidLine | InvalidDigest | NestedName | DuplicateName

  predicate Flat(name: string) {
    '/' !in name && '\\' !in name
  }

  /** One line added to the checksums read so far. */
  function ReadEntry(sums: map<string, string>, line: string): Result<map<string, string>, ChecksumError> {
    var parts := SplitOnce(line, "");
    if parts.None? then Err(InvalidLine)
    else
      var (digest, name) := parts.value;
      if !IsDigest(digest) then Err(InvalidDigest)
      else if !Flat(name) then Err(NestedName)
      else if name in sums then Err(DuplicateName)
      else Ok(sums[name := digest])
  }

  function ReadEntries(lines: seq<string>): Result<map<string, string>, ChecksumError> {
    if lines == [] then Ok(map[])
    else
      var init := ReadEntries(lines[..|lines| - 1]);
      if init.Err? then init else ReadEntry(init.value, lines[|lines| - 1])
  }

  method ReadChecksums(text: string) returns (r: Result<map<string, string>, ChecksumError>)
    ensures r == ReadEntries(SplitLines(text, ""))
  {
    var lines := SplitLines(text, "");
    var sums: map<string, string> := map[];
    for i := 0 to |lines|
      invariant ReadEntries(lines[..i]) == Ok(sums)
    {
      assert lines[..i + 1][..i] == lines[..i];
      var entry := ReadEntry(sums, lines[i]);
      if entry.Err? {
        FirstErrorStays(lines, i + 1);
        return entry;
      }
      sums := entry.value;
    }
    assert lines[..|lines|] == lines;
    r := Ok(sums);
  }

  lemma {:induction false} FirstErrorStays(lines: seq<string>, k: nat)
    requires k <= |lines| && ReadEntries(lines[..k]).Err?
    ensures ReadEntries(lines) == ReadEntries(lines[..k])
  {
    if k == |lines| {
      assert lines[..k] == lines;
    } else {
      assert lines[..|lines| - 1][..k] == lines[..k];
      FirstErrorStays(lines[..|lines| - 1], k);
    }
  }

  datatype Sum = Sum(name: string, digest: string)

  function SumLine(s: Sum): string {
    s.digest + "  " + s.name
  }

  function ChecksumText(sums: seq<Sum>): string {
    if sums == [] then "" else SumLine(sums[0]) + "\n" + ChecksumText(sums[1..])
  }

  function SumMap(sums: seq<Sum>): map<string, string> {
    if sums == [] then map[] else SumMap(sums[..|sums| - 1])[sums[|sums| - 1].name := sums[|sums| - 1].digest]
  }

  function SumLines(sums: seq<Sum>): (lines: seq<string>)
    ensures |lines| == |sums|
    ensures forall i :: 0 <= i < |sums| ==> lines[i] == SumLine(sums[i])
  {
    seq(|sums|, i requires 0 <= i < |sums| => SumLine(sums[i]))
  }

  predicate CleanName(name: string) {
    Flat(name) && forall c :: c in name ==> !IsLineEnd(c)
  }

  ghost predicate DistinctNames(sums: seq<Sum>) {
    forall i, j :: 0 <= i < j < |sums| ==> sums[i].name != sums[j].name
  }

  lemma {:induction false} ScanLine(s: string, rest: string, line: string)
    requires forall c :: c in s ==> !IsLineEnd(c)
    ensures SplitLines(s + rest, line) == SplitLines(rest, line + s)
  {
    if s == "" {
      assert s + rest == rest && line + s == line;
    } else {
      assert s[0] in s;
      assert (s + rest)[1..] == s[1..] + rest && line + s == line + [s[0]] + s[1..];
      ScanLine(s[1..], rest, line + [s[0]]);
    }
  }

  lemma SumLineIsClean(s: Sum)
    requires CleanSum(s)
    ensures forall c :: c in SumLine(s) ==> !IsLineEnd(c)
  {
    forall c | c in SumLine(s) ensures !IsLineEnd(c) {
      if c in s.digest { assert IsHex(c); }
    }
  }

  lemma FirstLine(line: string, rest: string)
    requires forall c :: c in line ==> !IsLineEnd(c)
    ensures SplitLines(line + ("\n" + rest), "") == [line] + SplitLines(rest, "")
  {
    ScanLine(line, "\n" + rest, "");
    assert "" + line == line && ("\n" + rest)[1..] == rest;
  }

  /** An entry the format can carry. */
  predicate CleanSum(s: Sum) {
    IsDigest(s.digest) && CleanName(s.name)
  }

  lemma {:induction false} TextLines(sums: seq<Sum>)
    requires forall s :: s in sums ==> CleanSum(s)
    ensures SplitLines(ChecksumText(sums), "") == SumLines(sums)
  {
    if sums != [] {
      var line, rest := SumLine(sums[0]), ChecksumText(sums[1..]);
      assert CleanSum(sums[0]);
      TextLines(sums[1..]);
      SumLineIsClean(sums[0]);
      FirstLine(line, rest);
      assert ChecksumText(sums) == line + ("\n" + rest);
      assert SumLines(sums) == [line] + SumLines(sums[1..]);
    }
  }

  lemma {:induction false} ScanDigest(digest: string, name: string, head: string)
    requires ' ' !in digest
    ensures SplitOnce(digest + "  " + name, head) == Some((head + digest, name))
    decreases |digest|
  {
    var s := digest + "  " + name;
    if digest == "" {
      assert s[2..] == name && head + digest == head;
    } else {
      assert digest[0] in digest;
      assert s[1..] == digest[1..] + "  " + name && head + digest == head + [digest[0]] + digest[1..];
      ScanDigest(digest[1..], name, head + [digest[0]]);
    }
  }

  lemma {:induction false} SumMapKeys(sums: seq<Sum>, name: string)
    ensures name in SumMap(sums) <==> exists s :: s in sums && s.name == name
  {
    if sums != [] {
      SumMapKeys(sums[..|sums| - 1], name);
      assert forall s :: s in sums <==> s in sums[..|sums| - 1] || s == sums[|sums| - 1];
    }
  }

  lemma ReadSum(sums: map<string, string>, s: Sum)
    requires CleanSum(s) && s.name !in sums
    ensures ReadEntry(sums, SumLine(s)) == Ok(sums[s.name := s.digest])
  {
    assert ' ' !in s.digest;
    ScanDigest(s.digest, s.name, "");
    assert "" + s.digest == s.digest;
  }

  lemma {:induction false} EntriesRoundTrip(sums: seq<Sum>)
    requires forall s :: s in sums ==> CleanSum(s)
    requires DistinctNames(sums)
    ensures ReadEntries(SumLines(sums)) == Ok(SumMap(sums))
  {
    if sums != [] {
      var init, last := sums[..|sums| - 1], sums[|sums| - 1];
      assert CleanSum(last);
      EntriesRoundTrip(init);
      assert SumLines(sums)[..|sums| - 1] == SumLines(init);
      SumMapKeys(init, last.name);
      ReadSum(SumMap(init), last);
    }
  }

  /** Reading what was printed gives back the same checksums, for all digests and
      all flat names without line ends. */
  lemma ChecksumRoundTrip(sums: seq<Sum>)
    requires forall s :: s in sums ==> CleanSum(s)
    requires DistinctNames(sums)
    ensures ReadEntries(SplitLines(ChecksumText(sums), "")) == Ok(SumMap(sums))
  {
    TextLines(sums);
    EntriesRoundTrip(sums);
  }

  // ----- Whatever parses has clean names -----

  lemma {:induction false} LinesAreClean(s: string, line: string, l: string)
    requires l in SplitLines(s, line) && forall c :: c in line ==> !IsLineEnd(c)
    ensures forall c :: c in l ==> !IsLineEnd(c)
    decreases |s|
  {
    if s != "" {
      if |s| >= 2 && s[0] == '\r' && s[1] == '\n' {
        if l != line { LinesAreClean(s[2..], "", l); }
      } else if IsLineEnd(s[0]) {
        if l != line { LinesAreClean(s[1..], "", l); }
      } else {
        LinesAreClean(s[1..], line + [s[0]], l);
      }
    }
  }

  lemma {:induction false} SplitOnceSuffix(s: string, head: string, c: char)
    requires SplitOnce(s, head).Some? && c in SplitOnce(s, head).value.1
    ensures c in s
    decreases |s|
  {
    if !(s[0] == ' ' && s[1] == ' ') { SplitOnceSuffix(s[1..], head + [s[0]], c); }
  }

  lemma {:induction false} ReadNamesAreClean(lines: seq<string>, name: string)
    requires forall l, c :: l in lines && c in l ==> !IsLineEnd(c)
    requires ReadEntries(lines).Ok? && name in ReadEntries(lines).value
    ensures CleanName(name)
  {
    if lines != [] {
      var init, last := lines[..|lines| - 1], lines[|lines| - 1];
      assert last in lines && forall l :: l in init ==> l in lines;
      if name in ReadEntries(init).value {
        ReadNamesAreClean(init, name);
      } else {
        forall c | c in name ensures !IsLineEnd(c) { SplitOnceSuffix(last, "", c); }
      }
    }
  }

  // ----- Tags and versions -----

  /** Characters `str.strip` removes. */
  predicate IsBlank(c: char) {
    var n := c as int;
    || 9 <= n <= 13 || 0x1C <= n <= 0x20 || n == 0x85 || n == 0xA0 || n == 0x1680 || 0x2000 <= n <= 0x200A
    || n == 0x2028 || n == 0x2029 || n == 0x202F || n == 0x205F || n == 0x3000
  }

  function Dashed(s: string): (d: string)
    ensures |d| == |s| && forall i :: 0 <= i < |s| ==> d[i] == if s[i] == '/' then '-' else s[i]
  {
    seq(|s|, i requires 0 <= i < |s| => if s[i] == '/' then '-' else s[i])
  }

  datatype Tagged = Tagged(tag: string, version: string)

  /** `normalized_version`: the stripped tag and its version, none when either is empty. */
  function NormalizedVersion(releaseTag: string): Option<Tagged> {
    var tag := Strip(IsBlank, releaseTag);
    if tag == "" then None
    else
      var version := Dashed(if tag[0] == 'v' then tag[1..] else tag);
      if version == "" then None else Some(Tagged(tag, version))
  }

  /** Normalising a normalised tag gives the same tag and version. */
  lemma NormalizationIsStable(releaseTag: string)
    requires NormalizedVersion(releaseTag).Some?
    ensures NormalizedVersion(NormalizedVersion(releaseTag).value.tag) == NormalizedVersion(releaseTag)
  {
    StripIsIdempotent(IsBlank, releaseTag);
  }

  /** No backslash and no line end; slashes do no harm. */
  predicate CleanTag(tag: string) {
    '\\' !in tag && forall c :: c in tag ==> !IsLineEnd(c)
  }

  lemma CleanVersionIff(releaseTag: string)
    requires NormalizedVersion(releaseTag).Some?
    ensures var t := NormalizedVersion(releaseTag).value;
            CleanName(t.version) <==> CleanTag(t.tag)
  {
    var t := NormalizedVersion(releaseTag).value;
    var rest := if t.tag[0] == 'v' then t.tag[1..] else t.tag;
    forall c | c in t.tag && (c == '\\' || IsLineEnd(c)) ensures c in t.version {
      var i :| 0 <= i < |t.tag| && t.tag[i] == c;
      var k := if t.tag[0] == 'v' then i - 1 else i;
      assert rest[k] == c && t.version[k] == c;
    }
    forall c | c in t.version ensures c != '/' && (c == '-' || c in t.tag) {
      var k :| 0 <= k < |rest| && t.version[k] == c;
      assert rest[k] in rest;
    }
  }

  // ----- Directories -----

  type Bytes = string

  datatype IndexDoc = IndexDoc(version: string, tag: string, tier: Tier, artifacts: set<string>, checksums: string)

  datatype File = Binary(bytes: Bytes) | Checksum(text: string) | IndexFile(doc: IndexDoc)

  type Directory = map<string, File>

  function ArchiveNames(version: string, tier: Tier): set<string> {
    set n | n in Archives(tier) :: Text(version, n)
  }

  function IndexName(tier: Tier): string {
    Text("", Index(tier.Trailing?))
  }

  function ChecksumsName(tier: Tier): string {
    Text("", Checksums(tier.Trailing?))
  }

  function IndexDocument(version: string, tag: string, tier: Tier): IndexDoc {
    IndexDoc(version, tag, tier, ArchiveNames(version, tier), ChecksumsName(tier))
  }

  /** The index and checksums file of a tier against its archives. */
  predicate VerifyTierFiles(sha: Bytes -> string, dir: Directory, tag: string, version: string, tier: Tier) {
    && IndexName(tier) in dir && dir[IndexName(tier)] == IndexFile(IndexDocument(version, tag, tier))
    && ChecksumsName(tier) in dir && dir[ChecksumsName(tier)].Checksum?
    && var sums := ReadEntries(SplitLines(dir[ChecksumsName(tier)].text, ""));
    && sums.Ok? && sums.value.Keys == ArchiveNames(version, tier)
    && forall n :: n in ArchiveNames(version, tier) ==> n in dir && dir[n].Binary? && sha(dir[n].bytes) == sums.value[n]
  }

  function GroupArchives(version: string, tiers: seq<Tier>): set<string> {
    if tiers == [] then {} else ArchiveNames(version, tiers[0]) + GroupArchives(version, tiers[1..])
  }

  function GroupMetadata(tiers: seq<Tier>): set<string> {
    if tiers == [] then {} else {IndexName(tiers[0]), ChecksumsName(tiers[0])} + GroupMetadata(tiers[1..])
  }

  /** A directory holding exactly the files of the given tiers. */
  predicate VerifyGroups(sha: Bytes -> string, dir: Directory, tag: string, version: string, tiers: seq<Tier>) {
    && (set n | n in dir && IsArchive(n)) == GroupArchives(version, tiers)
    && dir.Keys == GroupArchives(version, tiers) + GroupMetadata(tiers)
    && forall t :: t in tiers ==> VerifyTierFiles(sha, dir, tag, version, t)
  }

  predicate VerifyAssets(sha: Bytes -> string, dir: Directory, releaseTag: string, tiers: seq<Tier>) {
    var t := NormalizedVersion(releaseTag);
    t.Some? && VerifyGroups(sha, dir, t.value.tag, t.value.version, tiers)
  }

  /** The directory `prepare_assets` writes for downloaded archives, listed in
      the order `names`, before it verifies its own output. */
  function Prepared(sha: Bytes -> string, found: map<string, Bytes>, names: seq<string>, tag: string, version: string,
                    tier: Tier): Directory
    requires forall n :: n in names ==> n in found
  {
    (map n | n in found :: Binary(found[n]))
    + map[ChecksumsName(tier) := Checksum(ChecksumText(Sums(sha, found, names))),
          IndexName(tier) := IndexFile(IndexDocument(version, tag, tier))]
  }

  function Sums(sha: Bytes -> string, found: map<string, Bytes>, names: seq<string>): (sums: seq<Sum>)
    requires forall n :: n in names ==> n in found
    ensures |sums| == |names|
    ensures forall i :: 0 <= i < |names| ==> sums[i] == Sum(names[i], sha(found[names[i]]))
  {
    seq(|names|, i requires 0 <= i < |names| => Sum(names[i], sha(found[names[i]])))
  }

  lemma {:induction false} SumMapOfSums(sha: Bytes -> string, found: map<string, Bytes>, names: seq<string>, n: string)
    requires forall n :: n in names ==> n in found
    ensures n in SumMap(Sums(sha, found, names)) <==> n in names
    ensures n in names ==> SumMap(Sums(sha, found, names))[n] == sha(found[n])
  {
    if names != [] {
      var init := names[..|names| - 1];
      SumMapOfSums(sha, found, init, n);
      assert Sums(sha, found, names)[..|names| - 1] == Sums(sha, found, init);
      assert n in names <==> n in init || n == names[|names| - 1];
    }
  }

  lemma MetadataIsNotArchive(version: string, tier: Tier)
    ensures !IsArchive(IndexName(tier)) && !IsArchive(ChecksumsName(tier)) && IndexName(tier) != ChecksumsName(tier)
    ensures forall n :: n in ArchiveNames(version, tier) ==> IsArchive(n)
  {
    assert IndexName(tier)[|IndexName(tier)| - 1] == 'n' && ChecksumsName(tier)[|ChecksumsName(tier)| - 1] == '6';
    assert ".tar.gz"[6] == 'z' && ".zip"[3] == 'p';
    forall n | n in ArchiveNames(version, tier) ensures IsArchive(n) {
      var a :| a in Archives(tier) && n == Text(version, a);
      TierFilesByKind(tier, a);
      ArchiveIsArchive(version, a.binary, a.target);
    }
  }

  // ----- Preparing, then verifying -----

  /** What `prepare_assets` requires before it writes: the archives found are
      exactly the tier's, and `names` lists them once each. */
  ghost predicate Complete(found: map<string, Bytes>, names: seq<string>, version: string, tier: Tier) {
    && found.Keys == ArchiveNames(version, tier)
    && (forall n :: n in names <==> n in found)
    && (forall i, j :: 0 <= i < j < |names| ==> names[i] != names[j])
  }

  lemma PreparedFile(sha: Bytes -> string, found: map<string, Bytes>, names: seq<string>, tag: string, version: string,
                     tier: Tier, n: string)
    requires Complete(found, names, version, tier) && n in found
    ensures var dir := Prepared(sha, found, names, tag, version, tier);
            n in dir && dir[n] == Binary(found[n]) && IsArchive(n)
  {
    MetadataIsNotArchive(version, tier);
  }

  /** The checksums file just written reads back as the hashes of the archives. */
  lemma PreparedSums(sha: Bytes -> string, found: map<string, Bytes>, names: seq<string>, version: string, tier: Tier)
    requires Complete(found, names, version, tier) && (forall b :: IsDigest(sha(b)))
    requires forall n :: n in names ==> CleanName(n)
    ensures var sums := ReadEntries(SplitLines(ChecksumText(Sums(sha, found, names)), ""));
            && sums.Ok? && sums.value.Keys == ArchiveNames(version, tier)
            && forall n :: n in sums.value ==> sums.value[n] == sha(found[n])
  {
    var sums := Sums(sha, found, names);
    forall s | s in sums ensures CleanSum(s) {
      var i :| 0 <= i < |sums| && sums[i] == s;
      assert names[i] in names;
    }
    ChecksumRoundTrip(sums);
    forall n: string ensures (n in SumMap(sums) <==> n in found) && (n in found ==> SumMap(sums)[n] == sha(found[n])) {
      SumMapOfSums(sha, found, names, n);
    }
  }

  lemma PreparedFileSet(sha: Bytes -> string, found: map<string, Bytes>, names: seq<string>, tag: string,
                        version: string, tier: Tier)
    requires Complete(found, names, version, tier)
    ensures var dir := Prepared(sha, found, names, tag, version, tier);
            && (set n | n in dir && IsArchive(n)) == ArchiveNames(version, tier)
            && dir.Keys == ArchiveNames(version, tier) + {IndexName(tier), ChecksumsName(tier)}
  {
    MetadataIsNotArchive(version, tier);
  }

  lemma SingleGroup(version: string, tier: Tier)
    ensures GroupArchives(version, [tier]) == ArchiveNames(version, tier)
    ensures GroupMetadata([tier]) == {IndexName(tier), ChecksumsName(tier)}
  {
    assert [tier][1..] == [];
  }

  lemma CleanTierVerifies(sha: Bytes -> string, found: map<string, Bytes>, names: seq<string>, tag: string,
                          version: string, tier: Tier)
    requires Complete(found, names, version, tier) && (forall b :: IsDigest(sha(b)))
    requires forall n :: n in names ==> CleanName(n)
    ensures VerifyTierFiles(sha, Prepared(sha, found, names, tag, version, tier), tag, version, tier)
  {
    var dir := Prepared(sha, found, names, tag, version, tier);
    PreparedMetadata(sha, found, names, tag, version, tier);
    PreparedSums(sha, found, names, version, tier);
    forall n | n in ArchiveNames(version, tier) ensures n in dir && dir[n] == Binary(found[n]) {
      PreparedFile(sha, found, names, tag, version, tier, n);
    }
  }

  /** A prepared tier passes its own verification exactly when every archive name
      is flat and free of line ends. */
  lemma PreparedVerifiesIff(sha: Bytes -> string, found: map<string, Bytes>, names: seq<string>, tag: string,
                            version: string, tier: Tier)
    requires Complete(found, names, version, tier) && forall b :: IsDigest(sha(b))
    ensures VerifyGroups(sha, Prepared(sha, found, names, tag, version, tier), tag, version, [tier])
            <==> forall n :: n in names ==> CleanName(n)
  {
    var dir := Prepared(sha, found, names, tag, version, tier);
    OneTierIff(sha, dir, tag, version, tier);
    PreparedFileSet(sha, found, names, tag, version, tier);
    if forall n :: n in names ==> CleanName(n) {
      CleanTierVerifies(sha, found, names, tag, version, tier);
    } else if VerifyTierFiles(sha, dir, tag, version, tier) {
      VerifiedNamesAreClean(sha, dir, tag, version, tier);
    }
  }

  lemma PreparedMetadata(sha: Bytes -> string, found: map<string, Bytes>, names: seq<string>, tag: string,
                         version: string, tier: Tier)
    requires Complete(found, names, version, tier)
    ensures var dir := Prepared(sha, found, names, tag, version, tier);
            && IndexName(tier) in dir && dir[IndexName(tier)] == IndexFile(IndexDocument(version, tag, tier))
            && ChecksumsName(tier) in dir && dir[ChecksumsName(tier)] == Checksum(ChecksumText(Sums(sha, found, names)))
  {
    MetadataIsNotArchive(version, tier);
  }

  lemma VerifiedNamesAreClean(sha: Bytes -> string, dir: Directory, tag: string, version: string, tier: Tier)
    requires VerifyTierFiles(sha, dir, tag, version, tier)
    ensures forall n :: n in ArchiveNames(version, tier) ==> CleanName(n)
  {
    var lines := SplitLines(dir[ChecksumsName(tier)].text, "");
    forall l, c | l in lines && c in l ensures !IsLineEnd(c) {
      LinesAreClean(dir[ChecksumsName(tier)].text, "", l);
    }
    forall n | n in ArchiveNames(version, tier) ensures CleanName(n) {
      ReadNamesAreClean(lines, n);
    }
  }

  function HashOf(sha: Bytes -> string, dir: Directory, n: string): Option<string> {
    if n in dir && dir[n].Binary? then Some(sha(dir[n].bytes)) else None
  }

  /** Two directories with the same file under the name `n`. */
  predicate SameFile(dir: Directory, dir': Directory, n: string) {
    n in dir && n in dir' && dir[n] == dir'[n]
  }

  lemma TierDetectsChange(sha: Bytes -> string, dir: Directory, dir': Directory, tag: string, version: string,
                          tier: Tier)
    requires VerifyTierFiles(sha, dir, tag, version, tier)
    requires SameFile(dir, dir', IndexName(tier)) && SameFile(dir, dir', ChecksumsName(tier))
    ensures VerifyTierFiles(sha, dir', tag, version, tier) <==>
            forall n :: n in ArchiveNames(version, tier) ==> HashOf(sha, dir', n) == HashOf(sha, dir, n)
  {
    var names := ArchiveNames(version, tier);
    if VerifyTierFiles(sha, dir', tag, version, tier) {
      forall n | n in names ensures HashOf(sha, dir', n) == HashOf(sha, dir, n) {}
    }
  }

  lemma {:induction false} InGroup(version: string, tiers: seq<Tier>, n: string)
    ensures n in GroupArchives(version, tiers) <==> exists t :: t in tiers && n in ArchiveNames(version, t)
  {
    if tiers != [] {
      InGroup(version, tiers[1..], n);
      assert forall t :: t in tiers <==> t == tiers[0] || t in tiers[1..];
    }
  }

  /** With every index and checksums file as it was, verification of any tiers
      holds exactly while the file set is the same and every archive has the same
      hash. */
  lemma VerifyDetectsChange(sha: Bytes -> string, dir: Directory, dir': Directory, tag: string, version: string,
                            tiers: seq<Tier>)
    requires VerifyGroups(sha, dir, tag, version, tiers)
    requires forall t :: t in tiers ==> SameFile(dir, dir', IndexName(t)) && SameFile(dir, dir', ChecksumsName(t))
    ensures VerifyGroups(sha, dir', tag, version, tiers) <==>
            && dir'.Keys == dir.Keys
            && forall n :: n in GroupArchives(version, tiers) ==> HashOf(sha, dir', n) == HashOf(sha, dir, n)
  {
    forall t | t in tiers
      ensures VerifyTierFiles(sha, dir', tag, version, t) <==>
              forall n :: n in ArchiveNames(version, t) ==> HashOf(sha, dir', n) == HashOf(sha, dir, n)
    {
      TierDetectsChange(sha, dir, dir', tag, version, t);
    }
    forall n: string
      ensures n in GroupArchives(version, tiers) <==> exists t :: t in tiers && n in ArchiveNames(version, t)
    {
      InGroup(version, tiers, n);
    }
    if dir'.Keys == dir.Keys {
      assert (set n | n in dir' && IsArchive(n)) == (set n | n in dir && IsArchive(n));
    }
  }

  // ----- Two tiers together -----

  /** The flat file names of a tier. */
  function TierNames(version: string, tier: Tier): set<string> {
    ArchiveNames(version, tier) + {IndexName(tier), ChecksumsName(tier)}
  }

  lemma TierName(version: string, tier: Tier, n: string) returns (a: Name)
    requires n in TierNames(version, tier)
    ensures Owns(tier, a) && n == Text(version, a)
  {
    if n in ArchiveNames(version, tier) {
      a :| a in Archives(tier) && n == Text(version, a);
      TierFilesByKind(tier, a);
    } else {
      a := if n == IndexName(tier) then Index(tier.Trailing?) else Checksums(tier.Trailing?);
    }
  }

  /** No flat file name belongs to both tiers. */
  lemma TierNamesAreDisjoint(version: string, n: string)
    ensures !(n in TierNames(version, Core) && n in TierNames(version, Trailing))
  {
    if n in TierNames(version, Core) && n in TierNames(version, Trailing) {
      var a := TierName(version, Core, n);
      var b := TierName(version, Trailing, n);
      if a == b { TiersAreDisjoint(a); } else { NamesAreInjective(version, a, b); }
    }
  }

  /** The check of one tier looks at its own files only. */
  lemma TierLooksAtItsFiles(sha: Bytes -> string, dir: Directory, dir': Directory, tag: string, version: string,
                            tier: Tier)
    requires forall n :: n in TierNames(version, tier) ==> (n in dir <==> n in dir') && (n in dir ==> dir[n] == dir'[n])
    ensures VerifyTierFiles(sha, dir, tag, version, tier) <==> VerifyTierFiles(sha, dir', tag, version, tier)
  {
    assert IndexName(tier) in TierNames(version, tier) && ChecksumsName(tier) in TierNames(version, tier);
    assert forall n :: n in ArchiveNames(version, tier) ==> n in TierNames(version, tier);
  }

  lemma TwoGroups(version: string)
    ensures GroupArchives(version, [Core, Trailing]) == ArchiveNames(version, Core) + ArchiveNames(version, Trailing)
    ensures GroupMetadata([Core, Trailing]) ==
            {IndexName(Core), ChecksumsName(Core)} + {IndexName(Trailing), ChecksumsName(Trailing)}
  {
    assert [Core, Trailing][1..] == [Trailing];
    SingleGroup(version, Trailing);
  }

  lemma ArchivesAmong(version: string, tier: Tier, n: string)
    requires n in TierNames(version, tier)
    ensures IsArchive(n) <==> n in ArchiveNames(version, tier)
  {
    MetadataIsNotArchive(version, tier);
  }

  /** One tier verifies exactly when its file names are all there and nothing else,
      and its index and checksums agree. */
  lemma OneTierIff(sha: Bytes -> string, dir: Directory, tag: string, version: string, tier: Tier)
    ensures VerifyGroups(sha, dir, tag, version, [tier]) <==>
            dir.Keys == TierNames(version, tier) && VerifyTierFiles(sha, dir, tag, version, tier)
  {
    SingleGroup(version, tier);
    assert tier in [tier];
    if dir.Keys == TierNames(version, tier) {
      forall n | n in dir
        ensures IsArchive(n) <==> n in ArchiveNames(version, tier)
      {
        ArchivesAmong(version, tier, n);
      }
      assert (set n | n in dir && IsArchive(n)) == ArchiveNames(version, tier);
    }
  }

  lemma ArchivesOfBoth(version: string, files: set<string>)
    requires files == TierNames(version, Core) + TierNames(version, Trailing)
    ensures (set n | n in files && IsArchive(n)) == ArchiveNames(version, Core) + ArchiveNames(version, Trailing)
  {
    forall n | n in files ensures IsArchive(n) <==> n in ArchiveNames(version, Core) + ArchiveNames(version, Trailing) {
      ArchiveOfEither(version, n);
    }
  }

  lemma BothFileSets(version: string, files: set<string>)
    ensures files == TierNames(version, Core) + TierNames(version, Trailing) <==>
            && (set n | n in files && IsArchive(n)) == GroupArchives(version, [Core, Trailing])
            && files == GroupArchives(version, [Core, Trailing]) + GroupMetadata([Core, Trailing])
  {
    TwoGroups(version);
    assert TierNames(version, Core) + TierNames(version, Trailing)
           == GroupArchives(version, [Core, Trailing]) + GroupMetadata([Core, Trailing]);
    if files == TierNames(version, Core) + TierNames(version, Trailing) { ArchivesOfBoth(version, files); }
  }

  lemma TwoTiersIff(sha: Bytes -> string, dir: Directory, tag: string, version: string)
    ensures VerifyGroups(sha, dir, tag, version, [Core, Trailing]) <==>
            && dir.Keys == TierNames(version, Core) + TierNames(version, Trailing)
            && VerifyTierFiles(sha, dir, tag, version, Core) && VerifyTierFiles(sha, dir, tag, version, Trailing)
  {
    BothFileSets(version, dir.Keys);
    assert (set n | n in dir && IsArchive(n)) == (set n | n in dir.Keys && IsArchive(n));
    assert forall t :: t in [Core, Trailing] <==> t == Core || t == Trailing;
  }

  lemma ArchiveOfEither(version: string, n: string)
    requires n in TierNames(version, Core) || n in TierNames(version, Trailing)
    ensures IsArchive(n) <==> n in ArchiveNames(version, Core) || n in ArchiveNames(version, Trailing)
  {
    TierNamesAreDisjoint(version, n);
    ArchivesAmong(version, if n in TierNames(version, Core) then Core else Trailing, n);
  }

  /** Put together, a core and a trailing directory verify as two tiers if and only
      if each verifies as its own tier. */
  lemma TiersVerifyTogetherIff(sha: Bytes -> string, core: Directory, trailing: Directory, tag: string, version: string)
    requires core.Keys <= TierNames(version, Core) && trailing.Keys <= TierNames(version, Trailing)
    ensures VerifyGroups(sha, core + trailing, tag, version, [Core, Trailing]) <==>
            VerifyGroups(sha, core, tag, version, [Core]) && VerifyGroups(sha, trailing, tag, version, [Trailing])
  {
    var both := core + trailing;
    forall n: string
      ensures !(n in TierNames(version, Core) && n in TierNames(version, Trailing))
    {
      TierNamesAreDisjoint(version, n);
    }
    TierLooksAtItsFiles(sha, both, core, tag, version, Core);
    TierLooksAtItsFiles(sha, both, trailing, tag, version, Trailing);
    OneTierIff(sha, core, tag, version, Core);
    OneTierIff(sha, trailing, tag, version, Trailing);
    TwoTiersIff(sha, both, tag, version);
    UnionKeys(core.Keys, trailing.Keys, TierNames(version, Core), TierNames(version, Trailing));
    assert both.Keys == core.Keys + trailing.Keys;
  }

  lemma UnionKeys(a: set<string>, b: set<string>, m: set<string>, n: set<string>)
    requires a <= m && b <= n && m !! n
    ensures a + b == m + n <==> a == m && b == n
  {
    if a + b == m + n {
      forall x | x in m ensures x in a { assert x in a + b; }
      forall x | x in n ensures x in b { assert x in a + b; }
    }
  }

  /** The two tiers as they are prepared, core first, verify together if and only if
      the version is clean. */
  lemma PreparedTiersVerifyTogetherIff(sha: Bytes -> string, core: map<string, Bytes>, trailing: map<string, Bytes>,
                                       coreNames: seq<string>, trailingNames: seq<string>, tag: string, version: string)
    requires Complete(core, coreNames, version, Core) && Complete(trailing, trailingNames, version, Trailing)
    requires forall b :: IsDigest(sha(b))
    ensures VerifyGroups(sha, Prepared(sha, core, coreNames, tag, version, Core)
                              + Prepared(sha, trailing, trailingNames, tag, version, Trailing),
                         tag, version, [Core, Trailing])
            <==> CleanName(version)
  {
    PreparedFileSet(sha, core, coreNames, tag, version, Core);
    PreparedFileSet(sha, trailing, trailingNames, tag, version, Trailing);
    TiersVerifyTogetherIff(sha, Prepared(sha, core, coreNames, tag, version, Core),
                           Prepared(sha, trailing, trailingNames, tag, version, Trailing), tag, version);
    PreparedVerifiesIff(sha, core, coreNames, tag, version, Core);
    PreparedVerifiesIff(sha, trailing, trailingNames, tag, version, Trailing);
    ArchivesAreCleanIff(version, Core);
    ArchivesAreCleanIff(version, Trailing);
  }

  lemma CleanConcat(a: string, b: string)
    ensures CleanName(a + b) <==> CleanName(a) && CleanName(b)
  {
    assert forall c :: c in a + b <==> c in a || c in b;
  }

  predicate Plain(c: char) {
    'a' <= c <= 'z' || '0' <= c <= '9' || c == '-' || c == '_' || c == '.'
  }

  lemma PlainIsClean(s: string)
    requires forall i :: 0 <= i < |s| ==> Plain(s[i])
    ensures CleanName(s)
  {}

  lemma BinaryIsClean(b: ReleaseNames.Binary)
    ensures CleanName(BinaryText(b))
  {
    PlainIsClean(BinaryText(b));
  }

  lemma TargetIsClean(t: Target)
    ensures CleanName(TargetName(t)) && CleanName(Extension(t))
  {
    assert CleanName(ArchText(t)) by { PlainIsClean(ArchText(t)); }
    assert CleanName(PlatformText(t)) by { PlainIsClean(PlatformText(t)); }
    assert CleanName(Extension(t)) by { PlainIsClean(Extension(t)); }
    CleanConcat(ArchText(t), PlatformText(t));
  }

  /** Archive names are clean exactly when the version is. */
  lemma ArchivesAreCleanIff(version: string, tier: Tier)
    ensures (forall n :: n in ArchiveNames(version, tier) ==> CleanName(n)) <==> CleanName(version)
  {
    forall b, t ensures CleanName(Text(version, Archive(b, t))) <==> CleanName(version) {
      ArchiveIsCleanIff(version, b, t);
    }
    forall n | n in ArchiveNames(version, tier) ensures exists b, t :: n == Text(version, Archive(b, t)) {
      var a :| a in Archives(tier) && n == Text(version, a);
      TierFilesByKind(tier, a);
      assert a == Archive(a.binary, a.target);
    }
    var t := if tier.Trailing? then MacX64 else LinuxX64;
    TierFilesByKind(tier, Archive(Gateway, t));
    assert Text(version, Archive(Gateway, t)) in ArchiveNames(version, tier);
  }

  lemma ArchiveIsCleanIff(version: string, b: ReleaseNames.Binary, t: Target)
    ensures CleanName(Text(version, Archive(b, t))) <==> CleanName(version)
  {
    BinaryIsClean(b);
    TargetIsClean(t);
    CleanConcat(BinaryText(b), version);
    CleanConcat(BinaryText(b) + version, "-");
    CleanConcat(BinaryText(b) + version + "-", TargetName(t));
    CleanConcat(BinaryText(b) + version + "-" + TargetName(t), Extension(t));
    assert CleanName("-");
  }

  /** A downloaded archive: base name and bytes. */
  datatype Found = Found(name: string, bytes: Bytes)

  ghost predicate DistinctFound(archives: seq<Found>) {
    forall i, j :: 0 <= i < j < |archives| ==> archives[i].name != archives[j].name
  }

  /** Archives by base name, refused when two share one. */
  method IndexByName(archives: seq<Found>) returns (found: Option<map<string, Bytes>>)
    ensures found.Some? <==> DistinctFound(archives)
    ensures found.Some? ==> forall n :: n in found.value <==> exists i :: 0 <= i < |archives| && archives[i].name == n
    ensures found.Some? ==> forall i :: 0 <= i < |archives| ==>
              archives[i].name in found.value && found.value[archives[i].name] == archives[i].bytes
  {
    var byName: map<string, Bytes> := map[];
    for i := 0 to |archives|
      invariant DistinctFound(archives[..i])
      invariant forall n :: n in byName <==> exists k :: 0 <= k < i && archives[k].name == n
      invariant forall k :: 0 <= k < i ==> archives[k].name in byName && byName[archives[k].name] == archives[k].bytes
    {
      if archives[i].name in byName {
        return None;
      }
      byName := byName[archives[i].name := archives[i].bytes];
    }
    assert archives[..|archives|] == archives;
    found := Some(byName);
  }

  method List(names: set<string>) returns (order: seq<string>)
    ensures forall n :: n in order <==> n in names
    ensures forall i, j :: 0 <= i < j < |order| ==> order[i] != order[j]
  {
    order := [];
    var left := names;
    while left != {}
      invariant left <= names && forall n :: n in order <==> n in names && n !in left
      invariant forall i, j :: 0 <= i < j < |order| ==> order[i] != order[j]
      decreases left
    {
      var n :| n in left;
      order := order + [n];
      left := left - {n};
    }
  }

  /** Flattening succeeds exactly when the tag has a version, the archives are the
      tier's, once each, and the tag holds no backslash and no line end; what it
      writes passes verification. */
  method PrepareAssets(sha: Bytes -> string, archives: seq<Found>, releaseTag: string, tier: Tier)
    returns (dir: Option<Directory>)
    requires forall b :: IsDigest(sha(b))
    ensures dir.Some? <==>
              && NormalizedVersion(releaseTag).Some? && DistinctFound(archives)
              && var t := NormalizedVersion(releaseTag).value;
              && CleanTag(t.tag) && (set i | 0 <= i < |archives| :: archives[i].name) == ArchiveNames(t.version, tier)
    ensures dir.Some? ==> VerifyAssets(sha, dir.value, releaseTag, [tier])
    ensures dir.Some? ==> forall i :: 0 <= i < |archives| ==>
              HashOf(sha, dir.value, archives[i].name) == Some(sha(archives[i].bytes))
  {
    var normalized := NormalizedVersion(releaseTag);
    if normalized.None? {
      return None;
    }
    var tag, version := normalized.value.tag, normalized.value.version;
    NormalizationIsStable(releaseTag);
    CleanVersionIff(releaseTag);
    dir := Flatten(sha, archives, tag, version, tier);
    if dir.Some? && !VerifyAssets(sha, dir.value, tag, [tier]) {
      dir := None;
    }
  }

  /** The files written for the archives found, none when they are not the tier's. */
  method Flatten(sha: Bytes -> string, archives: seq<Found>, tag: string, version: string, tier: Tier)
    returns (dir: Option<Directory>)
    requires forall b :: IsDigest(sha(b))
    ensures dir.Some? <==>
            DistinctFound(archives) && (set i | 0 <= i < |archives| :: archives[i].name) == ArchiveNames(version, tier)
    ensures dir.Some? ==> (VerifyGroups(sha, dir.value, tag, version, [tier]) <==> CleanName(version))
    ensures dir.Some? ==> forall i :: 0 <= i < |archives| ==>
              HashOf(sha, dir.value, archives[i].name) == Some(sha(archives[i].bytes))
  {
    var byName := IndexByName(archives);
    if byName.None? {
      return None;
    }
    var found := byName.value;
    assert found.Keys == set i | 0 <= i < |archives| :: archives[i].name;
    if found.Keys != ArchiveNames(version, tier) {
      return None;
    }
    var names := List(found.Keys);
    var written := Prepared(sha, found, names, tag, version, tier);
    PreparedVerifiesIff(sha, found, names, tag, version, tier);
    ArchivesAreCleanIff(version, tier);
    forall i | 0 <= i < |archives| ensures HashOf(sha, written, archives[i].name) == Some(sha(archives[i].bytes)) {
      PreparedFile(sha, found, names, tag, version, tier, archives[i].name);
    }
    dir := Some(written);
  }

  /** A tag with a backslash: its version normalises, a complete set of archives is
      flattened, and what is written fails the tier's own verification. */
  lemma BackslashTagFails(sha: Bytes -> string, tier: Tier) returns (found: map<string, Bytes>, names: seq<string>)
    requires forall b :: IsDigest(sha(b))
    ensures NormalizedVersion("v1\\0") == Some(Tagged("v1\\0", "1\\0")) && Complete(found, names, "1\\0", tier)
    ensures !VerifyAssets(sha, Prepared(sha, found, names, "v1\\0", "1\\0", tier), "v1\\0", [tier])
  {
    var tag, version := "v1\\0", "1\\0";
    StripFixed(IsBlank, tag);
    assert tag[1..] == version && Dashed(version) == version;
    assert version[1] == '\\' && !CleanName(version);
    found := map n | n in ArchiveNames(version, tier) :: "bytes";
    names := SomeListing(found.Keys);
    PreparedVerifiesIff(sha, found, names, tag, version, tier);
    ArchivesAreCleanIff(version, tier);
  }
}
