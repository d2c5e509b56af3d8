/**
 * The packwiz helpers of scripts/automation/utils/packwiz-parser.js: listing
 * the `.pw.toml` mod manifests, extracting their Modrinth metadata, reading
 * and rewriting the version pins of `pack.toml`, and the skip list of mods
 * that the update check must leave alone. Directory listings, parsed TOML
 * and the skip-list file are passed in and out as values.
 */
module PackwizParser {
  import opened Common
  import opened Text
  import opened Seqs

  const ManifestSuffix: string := ".pw.toml"

  // ---------------------------------------------------------------------------
  // Mod manifests

  predicate IsManifest(fileName: string) { EndsWith(fileName, ManifestSuffix) }

  /** `path.join(dir, name)` for a plain file name. */
  function JoinPath(dir: string, name: string): string { dir + "/" + name }

  /**
   * `getAllModFiles`: the manifests of the directory listing, in listing order,
   * joined to the directory; `listing` is `None` when the directory cannot be read.
   */
  function ModFiles(listing: Option<seq<string>>, dir: string): (r: seq<string>)
    ensures listing.None? ==> r == []
    ensures listing.Some? ==> |r| == |Filter(IsManifest, listing.value)|
    ensures listing.Some? ==> forall k :: 0 <= k < |r| ==> r[k] == JoinPath(dir, Filter(IsManifest, listing.value)[k])
  {
    match listing
    case None => []
    case Some(names) =>
      var manifests := Filter(IsManifest, names);
      seq(|manifests|, k requires 0 <= k < |manifests| => JoinPath(dir, manifests[k]))
  }

  /** A path is listed exactly when it joins the directory to a listed name that ends in `.pw.toml`. */
  lemma ModFilesMember(names: seq<string>, dir: string, name: string)
    ensures JoinPath(dir, name) in ModFiles(Some(names), dir) <==> name in names && IsManifest(name)
  {
    var manifests := Filter(IsManifest, names);
    var r := ModFiles(Some(names), dir);
    FilterMember(IsManifest, names, name);
    if JoinPath(dir, name) in r {
      var k :| 0 <= k < |r| && r[k] == JoinPath(dir, name);
      assert dir + "/" + manifests[k] == dir + "/" + name;
      assert manifests[k] == (dir + "/" + manifests[k])[|dir| + 1..];
    }
    if name in manifests {
      var k :| 0 <= k < |manifests| && manifests[k] == name;
      assert r[k] == JoinPath(dir, name);
    }
  }

  /** `path.basename(p)` for a path with no trailing separator: the part after the last `/`. */
  function Basename(p: string): (r: string)
    ensures '/' !in r
    ensures |r| <= |p| && r == p[|p| - |r|..]
    ensures |r| < |p| ==> p[|p| - |r| - 1] == '/'
  {
    if |p| == 0 || p[|p| - 1] == '/' then ""
    else
      var init := Basename(p[..|p| - 1]);
      assert p[..|p| - 1][|p| - 1 - |init|..] + [p[|p| - 1]] == p[|p| - |init| - 1..];
      init + [p[|p| - 1]]
  }

  lemma {:induction false} BasenameOfJoin(dir: string, name: string)
    requires '/' !in name
    ensures Basename(JoinPath(dir, name)) == name
    decreases |name|
  {
    var p := JoinPath(dir, name);
    if |name| == 0 {
    } else {
      var init := name[..|name| - 1];
      assert p[..|p| - 1] == JoinPath(dir, init);
      assert p[|p| - 1] == name[|name| - 1];
      BasenameOfJoin(dir, init);
      assert init + [name[|name| - 1]] == name;
    }
  }

  /** `getModName`: the basename with its first `.pw.toml` removed. */
  function ModName(filePath: string): string {
    RemoveFirst(Basename(filePath), ManifestSuffix)
  }

  /** The first `.pw.toml` of `x + ".pw.toml"` is the appended one when `x` holds none. */
  lemma FirstSuffixIsAppended(x: string)
    requires !Contains(x, ManifestSuffix)
    ensures IndexOf(x + ManifestSuffix, ManifestSuffix) == Some(|x|)
  {
    var s := x + ManifestSuffix;
    var n := |ManifestSuffix|;
    ContainsIff(x, ManifestSuffix);
    assert s[|x|..] == ManifestSuffix;
    assert OccursAt(s, ManifestSuffix, |x|);
    forall j | 0 <= j < |x| ensures !OccursAt(s, ManifestSuffix, j) {
      if j + n <= |x| {
        assert s[j..j + n] == x[j..j + n];
        assert !OccursAt(x, ManifestSuffix, j);
      } else {
        // the window straddles the appended suffix, whose `.p` cannot line up with `.pw.toml` shifted by 1..7
        var d := |x| - j;
        var w := s[j..j + n];
        assert s[|x|] == ManifestSuffix[0] == '.' && s[|x| + 1] == ManifestSuffix[1] == 'p';
        if d == 3 {
          assert w[d + 1] == s[|x| + 1];
          assert ManifestSuffix[4] == 't';
        } else {
          assert w[d] == s[|x|];
          assert ManifestSuffix[d] != '.';
        }
      }
    }
  }

  /** For `dir/X.pw.toml`, where X is a plain name holding no `.pw.toml`, the mod name is X. */
  lemma ModNameOfManifest(dir: string, x: string)
    requires '/' !in x && !Contains(x, ManifestSuffix)
    ensures ModName(JoinPath(dir, x + ManifestSuffix)) == x
  {
    assert '/' !in x + ManifestSuffix;
    BasenameOfJoin(dir, x + ManifestSuffix);
    FirstSuffixIsAppended(x);
    var s := x + ManifestSuffix;
    assert s[..|x|] == x;
    assert s[|x| + |ManifestSuffix|..] == [];
  }

  /** The `[update.modrinth]` table of a manifest. */
  datatype ModrinthUpdate = ModrinthUpdate(modId: string, version: string)

  /** A parsed `.pw.toml`: absent keys are `None`. */
  datatype ModToml = ModToml(
    name: string,
    side: Option<string>,
    mcVersions: Option<seq<string>>,
    modrinth: Option<ModrinthUpdate>)

  /** An element of the array `getAllModsMetadata` returns. */
  datatype ModMeta = ModMeta(
    filePath: string,
    fileName: string,
    name: string,
    projectId: string,
    currentVersionId: string,
    side: string,
    mcVersions: seq<string>)

  /** `data.side || 'both'`: an absent or empty side means both. */
  function SideOrBoth(side: Option<string>): (r: string)
    ensures r != ""
    ensures side.Some? && side.value != "" ==> r == side.value
  {
    if side.Some? && side.value != "" then side.value else "both"
  }

  /** The metadata record for a manifest that has a Modrinth table. */
  function MetaOf(filePath: string, t: ModToml): ModMeta
    requires t.modrinth.Some?
  {
    ModMeta(filePath, Basename(filePath), t.name, t.modrinth.value.modId, t.modrinth.value.version,
            SideOrBoth(t.side), t.mcVersions.GetOr([]))
  }

  predicate Tracked(parsed: Result<ModToml>) { parsed.Ok? && parsed.value.modrinth.Some? }

  /** The records `getAllModsMetadata` collects from `files`, in file order. */
  function Collected(files: seq<string>, parse: string -> Result<ModToml>): seq<ModMeta> {
    if |files| == 0 then []
    else
      var last := files[|files| - 1];
      Collected(files[..|files| - 1], parse)
      + (if Tracked(parse(last)) then [MetaOf(last, parse(last).value)] else [])
  }

  /**
   * The records are exactly the files that parse and have a Modrinth table, in
   * file order: every record comes from such a file, and a record for each.
   */
  lemma {:induction false} CollectedExactly(files: seq<string>, parse: string -> Result<ModToml>)
    ensures |Collected(files, parse)| <= |files|
    ensures forall m :: m in Collected(files, parse) ==>
              m.filePath in files && Tracked(parse(m.filePath)) && m == MetaOf(m.filePath, parse(m.filePath).value)
    ensures forall f :: f in files && Tracked(parse(f)) ==> MetaOf(f, parse(f).value) in Collected(files, parse)
    ensures forall m :: m in Collected(files, parse) ==> m.side != ""
  {
    if |files| > 0 {
      var init := files[..|files| - 1];
      CollectedExactly(init, parse);
      assert files == init + [files[|files| - 1]];
    }
  }

  /**
   * `getAllModsMetadata`: scans the manifests of the listing; a manifest that
   * fails to parse is skipped and the scan goes on.
   */
  method GetAllModsMetadata(listing: Option<seq<string>>, dir: string, parse: string -> Result<ModToml>)
    returns (mods: seq<ModMeta>)
    ensures mods == Collected(ModFiles(listing, dir), parse)
  {
    var files := ModFiles(listing, dir);
    mods := [];
    for i := 0 to |files|
      invariant mods == Collected(files[..i], parse)
    {
      var filePath := files[i];
      var data := parse(filePath);
      assert files[..i + 1][..i] == files[..i];
      if data.Ok? && data.value.modrinth.Some? {
        mods := mods + [MetaOf(filePath, data.value)];
      }
    }
    assert files[..|files|] == files;
  }

  // ---------------------------------------------------------------------------
  // pack.toml

  /** The `[versions]` table of `pack.toml`. */
  datatype PackVersions = PackVersions(minecraft: Option<string>, fabric: Option<string>)

  datatype PackToml = PackToml(name: string, versions: Option<PackVersions>)

  /** What `getPackMetadata` returns. */
  datatype PackMeta = PackMeta(name: string, mcVersion: Option<string>, fabricVersion: Option<string>)

  /** `value || null` for an optional string. */
  function NonEmpty(value: Option<string>): (r: Option<string>)
    ensures r.Some? <==> value.Some? && value.value != ""
    ensures r.Some? ==> r.value == value.value
  {
    if value.Some? && value.value != "" then value else None
  }

  /**
   * `getPackMetadata` on the parsed `pack.toml`: the versions become `null`
   * when the table or the key is absent (or empty); a read or parse failure is
   * passed on.
   */
  function PackMetadataOf(parsed: Result<PackToml>): (r: Result<PackMeta>)
    ensures parsed.Err? <==> r.Err?
    ensures r.Ok? ==> r.value.name == parsed.value.name
    ensures r.Ok? ==> (r.value.mcVersion.None? <==>
                         parsed.value.versions.None? || NonEmpty(parsed.value.versions.value.minecraft).None?)
    ensures r.Ok? ==> (r.value.fabricVersion.None? <==>
                         parsed.value.versions.None? || NonEmpty(parsed.value.versions.value.fabric).None?)
    ensures r.Ok? && r.value.mcVersion.Some? ==> r.value.mcVersion == parsed.value.versions.value.minecraft
    ensures r.Ok? && r.value.fabricVersion.Some? ==> r.value.fabricVersion == parsed.value.versions.value.fabric
  {
    match parsed
    case Err(m) => Err(m)
    case Ok(t) =>
      Ok(PackMeta(t.name,
                  if t.versions.Some? then NonEmpty(t.versions.value.minecraft) else None,
                  if t.versions.Some? then NonEmpty(t.versions.value.fabric) else None))
  }

  /** The characters JavaScript's `\s` matches. */
  predicate IsJsSpace(c: char) {
    c == ' ' || c == '\t' || c == '\n' || c == '\U{0B}' || c == '\U{0C}' || c == '\r'
    || c == '\U{A0}' || c == '\U{1680}' || ('\U{2000}' <= c <= '\U{200A}') || c == '\U{2028}' || c == '\U{2029}'
    || c == '\U{202F}' || c == '\U{205F}' || c == '\U{3000}' || c == '\U{FEFF}'
  }

  /** The end of the run of `\s` characters starting at `i`. */
  function SkipSpaces(s: string, i: nat): (r: nat)
    requires i <= |s|
    ensures i <= r <= |s|
    ensures forall j :: i <= j < r ==> IsJsSpace(s[j])
    ensures r < |s| ==> !IsJsSpace(s[r])
    decreases |s| - i
  {
    if i < |s| && IsJsSpace(s[i]) then SkipSpaces(s, i + 1) else i
  }

  /** The end of the run of characters other than `"` starting at `i`. */
  function SkipNonQuotes(s: string, i: nat): (r: nat)
    requires i <= |s|
    ensures i <= r <= |s|
    ensures forall j :: i <= j < r ==> s[j] != '"'
    ensures r < |s| ==> s[r] == '"'
    decreases |s| - i
  {
    if i < |s| && s[i] != '"' then SkipNonQuotes(s, i + 1) else i
  }

  /**
   * Where a match of the pattern `key\s*=\s*"[^"]+"` that starts at `i` ends,
   * if one does. Each part of the pattern stops at a character the next part
   * needs, so a start has at most one match.
   */
  function MatchEnd(s: string, key: string, i: nat): (r: Option<nat>)
    requires i <= |s|
    ensures r.Some? ==> i < r.value <= |s|
  {
    if !OccursAt(s, key, i) then None
    else
      var a := SkipSpaces(s, i + |key|);
      if a == |s| || s[a] != '=' then None
      else
        var b := SkipSpaces(s, a + 1);
        if b == |s| || s[b] != '"' then None
        else
          var c := SkipNonQuotes(s, b + 1);
          if c == b + 1 || c == |s| then None
          else Some(c + 1)
  }

  /** The leftmost match at or after `from`: its start and end. */
  function FindAssignment(s: string, key: string, from: nat): (r: Option<(nat, nat)>)
    requires from <= |s|
    ensures r.Some? ==> from <= r.value.0 < r.value.1 <= |s| && MatchEnd(s, key, r.value.0) == Some(r.value.1)
    ensures r.Some? ==> forall j :: from <= j < r.value.0 ==> MatchEnd(s, key, j).None?
    ensures r.None? ==> forall j :: from <= j <= |s| ==> MatchEnd(s, key, j).None?
    decreases |s| - from
  {
    match MatchEnd(s, key, from)
    case Some(e) => Some((from, e))
    case None => if from == |s| then None else FindAssignment(s, key, from + 1)
  }

  /** The replacement text `key = "value"`. */
  function AssignmentText(key: string, value: string): string {
    key + " = \"" + value + "\""
  }

  /** `content.replace(/key\s*=\s*"[^"]+"/, `key = "value"`)`: only the leftmost match is rewritten. */
  function ReplaceAssignment(s: string, key: string, value: string): (r: string)
    ensures FindAssignment(s, key, 0).None? ==> r == s
    ensures FindAssignment(s, key, 0).Some? ==>
              var (i, e) := FindAssignment(s, key, 0).value;
              r == s[..i] + AssignmentText(key, value) + s[e..]
  {
    match FindAssignment(s, key, 0)
    case None => s
    case Some((i, e)) => s[..i] + AssignmentText(key, value) + s[e..]
  }

  /**
   * Where the rewrite happened, the text now holds an assignment of the new
   * value: at the same place `i`, a match of the pattern covers exactly the new
   * `key = "value"` text, for a non-empty value without quotes.
   */
  lemma RewrittenAssignmentMatches(s: string, key: string, value: string, i: nat, e: nat)
    requires FindAssignment(s, key, 0) == Some((i, e))
    requires value != [] && '"' !in value
    ensures MatchEnd(ReplaceAssignment(s, key, value), key, i) == Some(i + |AssignmentText(key, value)|)
  {
    var r := ReplaceAssignment(s, key, value);
    var t := AssignmentText(key, value);
    assert r == s[..i] + t + s[e..];
    SpliceAt(s[..i], t, s[e..]);
    AssignmentAt(r, key, value, i);
  }

  lemma SpliceAt(before: string, t: string, after: string)
    ensures (before + t + after)[|before|..|before| + |t|] == t
  {
  }

  /** A match of the pattern at `i` when the text there reads `key = "value"`. */
  lemma AssignmentAt(r: string, key: string, value: string, i: nat)
    requires value != [] && '"' !in value
    requires i + |AssignmentText(key, value)| <= |r|
    requires r[i..i + |AssignmentText(key, value)|] == AssignmentText(key, value)
    ensures MatchEnd(r, key, i) == Some(i + |AssignmentText(key, value)|)
  {
    var t := AssignmentText(key, value);
    var n := |key|;
    assert |t| == n + 4 + |value| + 1;
    assert forall k :: 0 <= k < |t| ==> r[i + k] == t[k];
    assert t[..n] == key;
    assert r[i..i + n] == key;
    assert OccursAt(r, key, i);
    assert t[n] == ' ' && t[n + 1] == '=' && t[n + 2] == ' ' && t[n + 3] == '"';
    assert r[i + n] == ' ' && r[i + n + 1] == '=' && r[i + n + 2] == ' ' && r[i + n + 3] == '"';
    var a := SkipSpaces(r, i + n);
    assert SkipSpaces(r, i + n + 1) == i + n + 1;
    assert a == i + n + 1;
    var b := SkipSpaces(r, a + 1);
    assert SkipSpaces(r, i + n + 3) == i + n + 3;
    assert b == i + n + 3;
    forall j | i + n + 4 <= j < i + n + 4 + |value| ensures r[j] != '"' {
      assert r[j] == t[j - i] == value[j - (i + n + 4)];
    }
    assert r[i + n + 4 + |value|] == t[n + 4 + |value|] == '"';
    SkipNonQuotesOver(r, i + n + 4, i + n + 4 + |value|);
  }

  lemma {:induction false} SkipNonQuotesOver(s: string, i: nat, e: nat)
    requires i <= e < |s| && s[e] == '"'
    requires forall j :: i <= j < e ==> s[j] != '"'
    ensures SkipNonQuotes(s, i) == e
    decreases e - i
  {
    if i < e {
      SkipNonQuotesOver(s, i + 1, e);
    }
  }

  /** The version pins `updatePackMetadata` is asked to write. */
  datatype PackUpdates = PackUpdates(mcVersion: Option<string>, fabricVersion: Option<string>)

  /**
   * `updatePackMetadata` on the text of `pack.toml`: each pin is rewritten
   * only when its update is given and non-empty, the Minecraft pin first.
   */
  method UpdatePackMetadata(content: string, updates: PackUpdates) returns (written: string)
    ensures NonEmpty(updates.mcVersion).None? && NonEmpty(updates.fabricVersion).None? ==> written == content
    ensures written == PinsRewritten(content, updates)
  {
    written := content;
    if updates.mcVersion.Some? && updates.mcVersion.value != "" {
      written := ReplaceAssignment(written, "minecraft", updates.mcVersion.value);
    }
    if updates.fabricVersion.Some? && updates.fabricVersion.value != "" {
      written := ReplaceAssignment(written, "fabric", updates.fabricVersion.value);
    }
  }

  /** The text after both optional rewrites. */
  function PinsRewritten(content: string, updates: PackUpdates): string {
    var afterMinecraft :=
      if NonEmpty(updates.mcVersion).Some? then ReplaceAssignment(content, "minecraft", updates.mcVersion.value)
      else content;
    if NonEmpty(updates.fabricVersion).Some? then ReplaceAssignment(afterMinecraft, "fabric", updates.fabricVersion.value)
    else afterMinecraft
  }

  // ---------------------------------------------------------------------------
  // The skip list

  /**
   * An entry of `config/automation/mod-skip-list.json`. `until` and `addedAt`
   * are instants in milliseconds; an absent `until` never expires.
   */
  datatype SkipEntry = SkipEntry(modId: string, reason: string, until: Option<int>, addedBy: string, addedAt: int)

  const AddedByAutomation: string := "automated-check"

  /** The entry skips `projectId` at `now`: same id, and either no expiry or not expired yet. */
  predicate Skips(e: SkipEntry, projectId: string, now: int) {
    e.modId == projectId && (e.until.None? || now < e.until.value)
  }

  /** `isModSkipped`: whether `find` over the entries meets one that skips the project now. */
  function IsModSkipped(projectId: string, entries: seq<SkipEntry>, now: int): (r: bool)
    ensures r <==> exists i :: 0 <= i < |entries| && entries[i].modId == projectId
                               && (entries[i].until.None? || now < entries[i].until.value)
  {
    First((e: SkipEntry) => Skips(e, projectId, now), entries).Some?
  }

  /** An expired entry neither skips nor hides a later entry for the same mod. */
  lemma ExpiredEntryIgnored(projectId: string, expired: SkipEntry, entries: seq<SkipEntry>, now: int)
    requires expired.until.Some? && now >= expired.until.value
    ensures IsModSkipped(projectId, [expired] + entries, now) == IsModSkipped(projectId, entries, now)
  {
    var all := [expired] + entries;
    if IsModSkipped(projectId, all, now) {
      var i :| 0 <= i < |all| && all[i].modId == projectId && (all[i].until.None? || now < all[i].until.value);
      assert entries[i - 1] == all[i];
    }
    if IsModSkipped(projectId, entries, now) {
      var i :| 0 <= i < |entries| && entries[i].modId == projectId
               && (entries[i].until.None? || now < entries[i].until.value);
      assert all[i + 1] == entries[i];
    }
  }

  predicate OtherMod(projectId: string, e: SkipEntry) { e.modId != projectId }

  /** `skipped.filter(item => item.modId !== projectId)`. */
  function Without(entries: seq<SkipEntry>, projectId: string): (r: seq<SkipEntry>)
    ensures forall e :: e in r <==> e in entries && e.modId != projectId
  {
    var p := (e: SkipEntry) => OtherMod(projectId, e);
    forall e ensures e in Filter(p, entries) <==> e in entries && p(e) {
      FilterMember(p, entries, e);
    }
    Filter(p, entries)
  }

  /**
   * `addToSkipList`: drops every entry of the mod and appends the new one.
   * `file` is `None` when the skip list cannot be read, and then nothing is
   * written. Afterwards the mod has exactly one entry, the last, and the other
   * entries are all kept in their order.
   */
  method AddToSkipList(file: Option<seq<SkipEntry>>, projectId: string, reason: string, until: Option<int>, now: int)
    returns (written: Option<seq<SkipEntry>>)
    ensures written.Some? <==> file.Some?
    ensures written.Some? ==> (|written.value| > 0
              && written.value[|written.value| - 1] == SkipEntry(projectId, reason, until, AddedByAutomation, now))
    ensures written.Some? ==> forall k :: 0 <= k < |written.value| - 1 ==> written.value[k].modId != projectId
    ensures written.Some? ==> written.value[..|written.value| - 1] == Without(file.value, projectId)
  {
    if file.None? {
      return None;
    }
    var skipped := Without(file.value, projectId);
    skipped := skipped + [SkipEntry(projectId, reason, until, AddedByAutomation, now)];
    written := Some(skipped);
  }

  /** After adding, the mod is skipped until `until` (for ever when there is none), whatever the list held. */
  lemma AddedEntrySkips(entries: seq<SkipEntry>, projectId: string, reason: string, until: Option<int>, addedAt: int,
                        now: int)
    requires until.None? || now < until.value
    ensures IsModSkipped(projectId, Without(entries, projectId) + [SkipEntry(projectId, reason, until, AddedByAutomation, addedAt)], now)
  {
    var w := Without(entries, projectId) + [SkipEntry(projectId, reason, until, AddedByAutomation, addedAt)];
    assert w[|w| - 1].modId == projectId;
  }
}
