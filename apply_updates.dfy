/**
 * scripts/automation/apply-updates.js: installs each mod update with the
 * packwiz command, holds back a mod whose install fails for 48 hours, pins
 * the new Fabric loader in `pack.toml`, and writes the commit message. The
 * command runner is an oracle from command line to its standard output or
 * its error message; the skip list and `pack.toml` are the file contents
 * passed in and out, `None` for a file that cannot be read.
 */
module ApplyUpdates {
  import opened Common
  import opened Text
  import opened PackwizParser
  import opened CacheStore
  import opened CheckUpdates

  /** How long a mod whose install failed stays on the skip list. */
  const SkipCooldownMs: int := 48 * MsPerHour

  const FailedReasonPrefix: string := "Update failed: "

  function AddCommand(mod: ModUpdate): string {
    "packwiz modrinth add --project-id " + mod.projectId + " --version-id " + mod.latestVersionId + " -y"
  }

  /** The entry `addToSkipList` appends after the install of `mod` failed with `message`. */
  function FailureEntry(mod: ModUpdate, message: string, now: int): SkipEntry {
    SkipEntry(mod.projectId, FailedReasonPrefix + message, Some(now + SkipCooldownMs), AddedByAutomation, now)
  }

  // ---------------------------------------------------------------------------
  // Installing the mods

  /** The skip list after the installs of `mods`: every failure replaces the mod's entries by a 48-hour one. */
  function SkipListAfter(file: Option<seq<SkipEntry>>, mods: seq<ModUpdate>, run: string -> Result<string>, now: int)
    : (r: Option<seq<SkipEntry>>)
    ensures r.Some? <==> file.Some?
  {
    if |mods| == 0 then file
    else
      var before := SkipListAfter(file, mods[..|mods| - 1], run, now);
      var mod := mods[|mods| - 1];
      match run(AddCommand(mod))
      case Ok(_) => before
      case Err(m) =>
        if before.None? then None
        else Some(Without(before.value, mod.projectId) + [FailureEntry(mod, m, now)])
  }

  /** The loop over `updates.mods`: a failed install never stops the others. */
  method InstallMods(file: Option<seq<SkipEntry>>, mods: seq<ModUpdate>, run: string -> Result<string>, now: int)
    returns (written: Option<seq<SkipEntry>>)
    ensures written == SkipListAfter(file, mods, run, now)
  {
    written := file;
    for i := 0 to |mods|
      invariant written == SkipListAfter(file, mods[..i], run, now)
    {
      assert mods[..i + 1][..i] == mods[..i];
      var mod := mods[i];
      var outcome := run(AddCommand(mod));
      if outcome.Err? {
        var until := now + SkipCooldownMs;
        var w := AddToSkipList(written, mod.projectId, FailedReasonPrefix + outcome.message, Some(until), now);
        if w.Some? {
          assert w.value == w.value[..|w.value| - 1] + [w.value[|w.value| - 1]];
        }
        written := w;
      }
    }
    assert mods[..|mods|] == mods;
  }

  /** With no failed install the skip list is left as it was. */
  lemma {:induction false} NoFailureNoChange(file: Option<seq<SkipEntry>>, mods: seq<ModUpdate>,
                                             run: string -> Result<string>, now: int)
    requires forall k :: 0 <= k < |mods| ==> run(AddCommand(mods[k])).Ok?
    ensures SkipListAfter(file, mods, run, now) == file
  {
    if |mods| > 0 {
      var init := mods[..|mods| - 1];
      assert forall k :: 0 <= k < |init| ==> init[k] == mods[k];
      NoFailureNoChange(file, init, run, now);
    }
  }

  /** An entry that skips `projectId` survives the replacement of another mod's entries. */
  lemma KeptForOtherMod(entries: seq<SkipEntry>, projectId: string, e: SkipEntry, t: int)
    requires IsModSkipped(projectId, entries, t) && e.modId != projectId
    ensures IsModSkipped(projectId, Without(entries, e.modId) + [e], t)
  {
    var i :| 0 <= i < |entries| && entries[i].modId == projectId
             && (entries[i].until.None? || t < entries[i].until.value);
    var w := Without(entries, e.modId);
    assert entries[i] in w;
    var j :| 0 <= j < |w| && w[j] == entries[i];
    assert (w + [e])[j] == entries[i];
  }

  /**
   * Every mod whose install failed is skipped for the next 48 hours, whatever
   * the other installs did: a later failure of another mod keeps its entry,
   * and a later failure of the same mod replaces it by an equal hold.
   */
  lemma {:induction false} FailedModSkipped(file: Option<seq<SkipEntry>>, mods: seq<ModUpdate>,
                                            run: string -> Result<string>, now: int, k: nat, t: int)
    requires file.Some? && k < |mods| && run(AddCommand(mods[k])).Err?
    requires now <= t < now + SkipCooldownMs
    ensures IsModSkipped(mods[k].projectId, SkipListAfter(file, mods, run, now).value, t)
  {
    var init := mods[..|mods| - 1];
    var mod := mods[|mods| - 1];
    var before := SkipListAfter(file, init, run, now);
    if k == |mods| - 1 {
      var w := Without(before.value, mod.projectId) + [FailureEntry(mod, run(AddCommand(mod)).message, now)];
      assert w[|w| - 1].modId == mod.projectId;
    } else {
      assert init[k] == mods[k];
      FailedModSkipped(file, init, run, now, k, t);
      match run(AddCommand(mod))
      case Ok(_) =>
      case Err(m) =>
        var e := FailureEntry(mod, m, now);
        if mod.projectId == mods[k].projectId {
          var w := Without(before.value, mod.projectId) + [e];
          assert w[|w| - 1] == e;
        } else {
          KeptForOtherMod(before.value, mods[k].projectId, e, t);
        }
    }
  }

  // ---------------------------------------------------------------------------
  // The commit message

  const MixedTitle: string := "chore: update mods and Fabric loader"
  const LoaderTitle: string := "chore: update Fabric loader"
  const ModsHeader: string := "## Mod Updates"
  const LoaderHeader: string := "## Fabric Loader Update"
  /** The source's single footer literal, written in two parts so that the verifier can see its characters. */
  const Footer: string := "Co-Authored-By: Claude Sonnet 4.5 " + "<noreply@anthropic.com>"
  const Arrow: string := " \U{2192} "

  function ModsTitle(count: nat): string { "chore: update " + DecimalString(count) + " mod(s)" }

  function ModLine(mod: ModUpdate): string { "- " + mod.name + ": " + mod.currentVersion + Arrow + mod.latestVersion }

  function LoaderLine(loader: LoaderUpdate): string { "- " + loader.currentVersion + Arrow + loader.latestVersion }

  /** The title: none when there is nothing to update. */
  function Title(u: Updates): seq<string> {
    if |u.mods| > 0 && u.fabricLoader.Some? then [MixedTitle]
    else if |u.mods| > 0 then [ModsTitle(|u.mods|)]
    else if u.fabricLoader.Some? then [LoaderTitle]
    else []
  }

  /** One line per mod, in order. */
  function ModLines(mods: seq<ModUpdate>): (r: seq<string>)
    ensures |r| == |mods|
    ensures forall k :: 0 <= k < |mods| ==> r[k] == ModLine(mods[k])
  {
    if |mods| == 0 then [] else ModLines(mods[..|mods| - 1]) + [ModLine(mods[|mods| - 1])]
  }

  function ModSection(mods: seq<ModUpdate>): seq<string> {
    if |mods| == 0 then [] else [ModsHeader, ""] + ModLines(mods) + [""]
  }

  function LoaderSection(loader: Option<LoaderUpdate>): seq<string> {
    if loader.None? then [] else [LoaderHeader, "", LoaderLine(loader.value), ""]
  }

  /** The lines of the message: title, a blank line, the two sections, the footer. */
  function CommitLines(u: Updates): seq<string> {
    Title(u) + [""] + ModSection(u.mods) + LoaderSection(u.fabricLoader) + [Footer]
  }

  /** `generateCommitMessage`: pushes the lines one by one, then joins them with newlines. */
  method GenerateCommitMessage(u: Updates) returns (message: string)
    ensures message == Join(CommitLines(u), '\n')
  {
    var lines: seq<string> := [];
    if |u.mods| > 0 && u.fabricLoader.Some? {
      lines := lines + [MixedTitle];
    } else if |u.mods| > 0 {
      lines := lines + [ModsTitle(|u.mods|)];
    } else if u.fabricLoader.Some? {
      lines := lines + [LoaderTitle];
    }
    lines := lines + [""];
    assert lines == Title(u) + [""];
    ghost var head := lines;
    if |u.mods| > 0 {
      lines := lines + [ModsHeader];
      lines := lines + [""];
      for k := 0 to |u.mods|
        invariant lines == head + [ModsHeader, ""] + ModLines(u.mods[..k])
      {
        assert u.mods[..k + 1][..k] == u.mods[..k];
        lines := lines + [ModLine(u.mods[k])];
      }
      lines := lines + [""];
      assert u.mods[..|u.mods|] == u.mods;
    }
    assert lines == head + ModSection(u.mods);
    if u.fabricLoader.Some? {
      lines := lines + [LoaderHeader];
      lines := lines + [""];
      lines := lines + [LoaderLine(u.fabricLoader.value)];
      lines := lines + [""];
    }
    assert lines == head + ModSection(u.mods) + LoaderSection(u.fabricLoader);
    lines := lines + [Footer];
    message := Join(lines, '\n');
  }

  function CommitMessage(u: Updates): string { Join(CommitLines(u), '\n') }

  /**
   * The title says what is updated, and the line after it is blank: for a
   * run with updates, the first line is one of the three titles and the
   * second is empty.
   */
  lemma CommitTitle(u: Updates)
    requires TotalUpdates(u) > 0
    ensures |CommitLines(u)| >= 3 && CommitLines(u)[1] == ""
    ensures |u.mods| > 0 && u.fabricLoader.Some? ==> CommitLines(u)[0] == MixedTitle
    ensures |u.mods| > 0 && u.fabricLoader.None? ==> CommitLines(u)[0] == ModsTitle(|u.mods|)
    ensures |u.mods| == 0 ==> CommitLines(u)[0] == LoaderTitle
  {
  }

  /** With mod updates, lines 3 to 5 + n are the header, a blank line, the n mod lines in order and a blank line. */
  lemma ModSectionLayout(u: Updates)
    requires |u.mods| > 0
    ensures |CommitLines(u)| >= 5 + |u.mods|
    ensures CommitLines(u)[2] == ModsHeader && CommitLines(u)[3] == ""
    ensures forall k :: 0 <= k < |u.mods| ==> CommitLines(u)[4 + k] == ModLine(u.mods[k])
    ensures CommitLines(u)[4 + |u.mods|] == ""
  {
    var lines := CommitLines(u);
    assert lines == [Title(u)[0], ""] + ([ModsHeader, ""] + ModLines(u.mods) + [""])
                    + LoaderSection(u.fabricLoader) + [Footer];
  }

  /** The footer is the last line, and the message does not end with a newline. */
  lemma FooterLast(u: Updates)
    ensures CommitLines(u)[|CommitLines(u)| - 1] == Footer
    ensures |CommitMessage(u)| > 0 && CommitMessage(u)[|CommitMessage(u)| - 1] == '>'
  {
    var lines := CommitLines(u);
    JoinEndsWithLast(lines, '\n');
    var m := CommitMessage(u);
    assert m[|m| - |Footer|..] == Footer;
    assert m[|m| - 1] == m[|m| - |Footer|..][|Footer| - 1];
  }

  /** A mod or loader line is never a section header: it starts with `-`. */
  lemma ItemLinesAreNotHeaders(u: Updates)
    ensures forall x :: x in ModLines(u.mods) ==> x != ModsHeader && x != LoaderHeader
    ensures u.fabricLoader.Some? ==> LoaderLine(u.fabricLoader.value) != ModsHeader
                                     && LoaderLine(u.fabricLoader.value) != LoaderHeader
  {
    assert ModsHeader[0] == '#' && LoaderHeader[0] == '#';
    forall x | x in ModLines(u.mods) ensures x != ModsHeader && x != LoaderHeader {
      var k :| 0 <= k < |ModLines(u.mods)| && ModLines(u.mods)[k] == x;
      assert x == ModLine(u.mods[k]) && x[0] == '-';
    }
    if u.fabricLoader.Some? {
      assert LoaderLine(u.fabricLoader.value)[0] == '-';
    }
  }

  /** Neither header can be a title or the footer. */
  lemma SkeletonLinesAreNotHeaders(u: Updates)
    ensures forall x :: x in Title(u) + [""] + [Footer] ==> x != ModsHeader && x != LoaderHeader
  {
    assert ModsHeader[0] == '#' && LoaderHeader[0] == '#' && Footer[0] == 'C';
    assert forall x :: x in Title(u) ==> x[0] == 'c';
  }

  /** The loader section is there exactly when there is a loader update, and the mod section when there are mod updates. */
  lemma SectionsPresentIff(u: Updates)
    ensures LoaderHeader in CommitLines(u) <==> u.fabricLoader.Some?
    ensures ModsHeader in CommitLines(u) <==> |u.mods| > 0
  {
    var lines := CommitLines(u);
    var t := Title(u);
    var ms := ModSection(u.mods);
    var ls := LoaderSection(u.fabricLoader);
    assert lines == t + [""] + ms + ls + [Footer];
    ItemLinesAreNotHeaders(u);
    SkeletonLinesAreNotHeaders(u);
    assert ModsHeader[3] != LoaderHeader[3];
    assert forall x :: x in lines <==> x in t + [""] + [Footer] || x in ms || x in ls;
    assert forall x :: x in ms ==> x == ModsHeader || x == "" || x in ModLines(u.mods);
    assert u.fabricLoader.Some? ==> forall x :: x in ls ==> x == LoaderHeader || x == "" || x == LoaderLine(u.fabricLoader.value);
    assert u.fabricLoader.Some? ==> LoaderHeader in ls;
    assert |u.mods| > 0 ==> ModsHeader in ms;
  }

  /** No field of an update holds a line break. */
  predicate SingleLine(u: Updates) {
    && (forall k :: 0 <= k < |u.mods| ==>
          '\n' !in u.mods[k].name && '\n' !in u.mods[k].currentVersion && '\n' !in u.mods[k].latestVersion)
    && (u.fabricLoader.Some? ==>
          '\n' !in u.fabricLoader.value.currentVersion && '\n' !in u.fabricLoader.value.latestVersion)
  }

  lemma ModLinesSingle(u: Updates)
    requires SingleLine(u)
    ensures forall x :: x in ModSection(u.mods) ==> '\n' !in x
  {
    assert '\n' !in ModsHeader && '\n' !in Arrow && '\n' !in "- " && '\n' !in ": ";
    forall x | x in ModLines(u.mods) ensures '\n' !in x {
      var k :| 0 <= k < |ModLines(u.mods)| && ModLines(u.mods)[k] == x;
      assert x == ModLine(u.mods[k]);
    }
  }

  lemma TitleSingle(u: Updates)
    ensures forall x :: x in Title(u) ==> '\n' !in x
  {
    if |u.mods| > 0 && u.fabricLoader.None? {
      var t := ModsTitle(|u.mods|);
      assert forall c :: c in DecimalString(|u.mods|) ==> '0' <= c <= '9';
      assert '\n' !in "chore: update " && '\n' !in " mod(s)";
      assert forall c :: c in t ==> c in "chore: update " || c in DecimalString(|u.mods|) || c in " mod(s)";
    } else {
      assert '\n' !in MixedTitle && '\n' !in LoaderTitle;
    }
  }

  lemma LoaderSectionSingle(u: Updates)
    requires SingleLine(u)
    ensures forall x :: x in LoaderSection(u.fabricLoader) ==> '\n' !in x
  {
    if u.fabricLoader.Some? {
      var l := u.fabricLoader.value;
      assert '\n' !in LoaderHeader && '\n' !in Arrow && '\n' !in "- ";
      assert forall c :: c in LoaderLine(l) ==> c in "- " || c in l.currentVersion || c in Arrow || c in l.latestVersion;
    }
  }

  lemma SkeletonSingle(u: Updates)
    requires SingleLine(u)
    ensures forall x :: x in Title(u) + [""] + LoaderSection(u.fabricLoader) + [Footer] ==> '\n' !in x
  {
    TitleSingle(u);
    LoaderSectionSingle(u);
    assert '\n' !in Footer;
  }

  /** Splitting the message at its newlines gives back its lines, when no field holds a line break. */
  lemma MessageLines(u: Updates)
    requires SingleLine(u)
    ensures Split(CommitMessage(u), '\n') == CommitLines(u)
  {
    var lines := CommitLines(u);
    ModLinesSingle(u);
    SkeletonSingle(u);
    assert forall x :: x in lines ==>
             x in Title(u) + [""] + LoaderSection(u.fabricLoader) + [Footer] || x in ModSection(u.mods);
    assert forall k :: 0 <= k < |lines| ==> lines[k] in lines;
    SplitJoin(lines, '\n');
  }

  // ---------------------------------------------------------------------------
  // The run

  /** `pack.toml` after the loader pin: rewritten when there is a loader update and the file can be read. */
  function LoaderPinned(pack: Option<string>, loader: Option<LoaderUpdate>): (r: Option<string>)
    ensures loader.None? || pack.None? ==> r == pack
    ensures loader.Some? && pack.Some? ==>
              r == Some(if loader.value.latestVersion == "" then pack.value
                        else ReplaceAssignment(pack.value, "fabric", loader.value.latestVersion))
  {
    if loader.Some? && pack.Some? then Some(PinsRewritten(pack.value, PackUpdates(None, Some(loader.value.latestVersion))))
    else pack
  }

  /**
   * `main`: `updates` is the parsed `updates.json` (`Err` when it cannot be
   * read, which exits with 1). With nothing to update the run stops with
   * exit code 0 and touches nothing; otherwise it installs the mods, pins the
   * loader and returns the commit message. The final `packwiz refresh` only
   * logs its outcome and is not modelled.
   */
  method Apply(updates: Result<Updates>, skipList: Option<seq<SkipEntry>>, pack: Option<string>,
               run: string -> Result<string>, now: int)
    returns (exitCode: int, skipAfter: Option<seq<SkipEntry>>, packAfter: Option<string>, message: Option<string>)
    ensures updates.Err? ==> exitCode == 1 && skipAfter == skipList && packAfter == pack && message.None?
    ensures updates.Ok? && TotalUpdates(updates.value) == 0 ==>
              exitCode == 0 && skipAfter == skipList && packAfter == pack && message.None?
    ensures updates.Ok? && TotalUpdates(updates.value) > 0 ==>
              && exitCode == 0
              && skipAfter == SkipListAfter(skipList, updates.value.mods, run, now)
              && packAfter == LoaderPinned(pack, updates.value.fabricLoader)
              && message == Some(CommitMessage(updates.value))
  {
    if updates.Err? {
      return 1, skipList, pack, None;
    }
    var u := updates.value;
    if TotalUpdates(u) == 0 {
      return 0, skipList, pack, None;
    }
    skipAfter := InstallMods(skipList, u.mods, run, now);
    packAfter := pack;
    if u.fabricLoader.Some? && pack.Some? {
      var pinned := UpdatePackMetadata(pack.value, PackUpdates(None, Some(u.fabricLoader.value.latestVersion)));
      packAfter := Some(pinned);
    }
    var text := GenerateCommitMessage(u);
    return 0, skipAfter, packAfter, Some(text);
  }
}
