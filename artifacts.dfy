/** The shared output directory as a table of files, the pattern the
    extractor looks for, and the specification of one extraction: which
    content it returns and which files it removes. */
module Artifacts {
  import opened Wrappers
  import opened Naming

  /** One file of the output directory: its modification time, its text
      (`None` when opening or decoding it as UTF-8 fails) and whether
      `os.remove` succeeds on it. */
  datatype FileEntry = FileEntry(mtime: int, content: Option<string>, removable: bool)

  type Directory = map<string, FileEntry>

  /** The glob `*{internal}*.svg` read literally, hidden names included:
      the name splits as anything, `internal`, anything, ".svg". */
  ghost predicate GlobMatchesIncludingHidden(internal: string, f: string)
  {
    exists a: string, b: string :: f == a + internal + b + ".svg"
  }

  /** The glob as called, which skips hidden names (those starting with
      '.') because the pattern itself does not start with '.'. */
  ghost predicate GlobMatches(internal: string, f: string)
  {
    |f| > 0 && f[0] != '.' && GlobMatchesIncludingHidden(internal, f)
  }

  /** The stem-and-extension test without the hidden-name rule is the
      literal glob reading. */
  lemma StemTestIsGlobIncludingHidden(internal: string, f: string)
    ensures (|f| >= 4 && f[|f| - 4..] == ".svg" && Contains(f[..|f| - 4], internal))
      <==> GlobMatchesIncludingHidden(internal, f)
  {
    if |f| >= 4 && f[|f| - 4..] == ".svg" && Contains(f[..|f| - 4], internal) {
      var p := f[..|f| - 4];
      var i :| 0 <= i <= |p| && OccursAt(p, internal, i);
      assert OccursAt(p, internal, i);
      var a, b := p[..i], p[i + |internal|..];
      assert p == a + internal + b;
      assert f == p + ".svg";
      assert f == a + internal + b + ".svg";
    }
    if GlobMatchesIncludingHidden(internal, f) {
      var a: string, b: string :| f == a + internal + b + ".svg";
      assert f[..|f| - 4] == a + internal + b;
      assert f[|f| - 4..] == ".svg";
      assert (a + internal + b)[|a|..|a| + |internal|] == internal;
      assert OccursAt(f[..|f| - 4], internal, |a|);
    }
  }

  /** The stem-and-extension test the model computes with is the glob. */
  lemma StemTestIsGlob(internal: string, f: string)
    ensures (|f| >= 4 && f[|f| - 4..] == ".svg" && f[0] != '.' && Contains(f[..|f| - 4], internal))
      <==> GlobMatches(internal, f)
  {
    StemTestIsGlobIncludingHidden(internal, f);
  }

  /** The file name `f` matches the glob `*{internal}*.svg`: it is not a
      hidden name, it ends in ".svg", and `internal` occurs before that
      extension. */
  predicate Matches(internal: string, f: string)
    ensures Matches(internal, f) <==> GlobMatches(internal, f)
  {
    StemTestIsGlob(internal, f);
    |f| >= 4 && f[|f| - 4..] == ".svg" && f[0] != '.' && Contains(f[..|f| - 4], internal)
  }

  /** `found_files`: the names of the directory the glob returns. */
  function MatchSet(dir: Directory, internal: string): (found: set<string>)
    ensures forall f :: f in found <==> f in dir && GlobMatches(internal, f)
  {
    set f | f in dir && Matches(internal, f)
  }

  /** `t` is a match whose mtime is at least that of every match. */
  predicate IsNewest(dir: Directory, internal: string, t: string)
  {
    && t in dir && Matches(internal, t)
    && forall g :: g in dir && Matches(internal, g) ==> dir[g].mtime <= dir[t].mtime
  }

  /** What the extractor may return from `dir`: nothing when no file
      matches, otherwise the read result of some newest match (ties between
      equal mtimes may go either way). */
  predicate Extracted(dir: Directory, internal: string, r: Option<string>)
  {
    if MatchSet(dir, internal) == {} then r == None
    else exists t | t in dir :: IsNewest(dir, internal, t) && r == dir[t].content
  }

  /** `dir` after the deletion loop has been over the names in `gone`:
      each of them that exists and can be removed is gone. */
  function RemoveFound(dir: Directory, gone: set<string>): (r: Directory)
    ensures forall f :: f in r <==> f in dir && !(f in gone && dir[f].removable)
    ensures forall f :: f in r ==> r[f] == dir[f]
  {
    map f | f in dir && !(f in gone && dir[f].removable) :: dir[f]
  }

  /** The directory after a complete extraction for `internal`. */
  function Cleaned(dir: Directory, internal: string): Directory
  {
    RemoveFound(dir, MatchSet(dir, internal))
  }

  /** The extraction's frame: a file that does not match is kept with the
      same mtime, content and removability; a removable match is deleted;
      a match that cannot be removed stays as it was. */
  lemma CleanedFrame(dir: Directory, internal: string, f: string)
    ensures f in dir && !Matches(internal, f) ==> f in Cleaned(dir, internal) && Cleaned(dir, internal)[f] == dir[f]
    ensures f in dir && Matches(internal, f) ==> (f in Cleaned(dir, internal) <==> !dir[f].removable)
    ensures f in Cleaned(dir, internal) ==> f in dir && Cleaned(dir, internal)[f] == dir[f]
  {
  }

  /** No match: nothing comes back and the directory is left as it was. */
  lemma NoMatchNoChange(dir: Directory, internal: string, r: Option<string>)
    requires forall f :: f in dir ==> !Matches(internal, f)
    requires Extracted(dir, internal, r)
    ensures r == None
    ensures Cleaned(dir, internal) == dir
  {
  }

  /** Content that comes back is that of a matching file no other match is
      newer than; `None` with matches present means that file was unreadable. */
  lemma ExtractedIsNewest(dir: Directory, internal: string, r: Option<string>)
    requires Extracted(dir, internal, r)
    ensures r.Some? ==> exists t :: (t in dir && Matches(internal, t) && dir[t].content == r
      && forall g :: g in dir && Matches(internal, g) ==> dir[g].mtime <= dir[t].mtime)
    ensures r.None? ==> MatchSet(dir, internal) == {} || exists t :: IsNewest(dir, internal, t) && dir[t].content.None?
  {
  }

  /** When the matches have pairwise distinct mtimes, the returned value is
      determined: it is the read result of the single newest match. */
  lemma ExtractedDeterminate(dir: Directory, internal: string, r1: Option<string>, r2: Option<string>)
    requires forall f, g :: (f in dir && g in dir && Matches(internal, f) && Matches(internal, g) && f != g
      ==> dir[f].mtime != dir[g].mtime)
    requires Extracted(dir, internal, r1) && Extracted(dir, internal, r2)
    ensures r1 == r2
  {
  }

  /** A second extraction finds only the matches the first could not
      delete, and deletes nothing more: cleaning is idempotent. */
  lemma CleanedIdempotent(dir: Directory, internal: string)
    ensures MatchSet(Cleaned(dir, internal), internal) == set f | f in dir && Matches(internal, f) && !dir[f].removable
    ensures Cleaned(Cleaned(dir, internal), internal) == Cleaned(dir, internal)
  {
  }

  /** All matches can be removed: none is left, and a repeated extraction
      returns nothing and changes nothing. */
  lemma RepeatedExtraction(dir: Directory, internal: string, r2: Option<string>)
    requires forall f :: f in dir && Matches(internal, f) ==> dir[f].removable
    requires Extracted(Cleaned(dir, internal), internal, r2)
    ensures MatchSet(Cleaned(dir, internal), internal) == {}
    ensures r2 == None
    ensures Cleaned(Cleaned(dir, internal), internal) == Cleaned(dir, internal)
  {
  }

  /** A file named after a subject whose name contains `internal` is also
      matched by the pattern for `internal`; so the extractor keyed on the
      first subject's name also catches the second subject's files. */
  lemma PartnerArtifactMatches(internal: string, partner: string, f: string)
    requires Contains(partner, internal)
    requires Matches(partner, f)
    ensures Matches(internal, f)
  {
    ContainsTransitive(f[..|f| - 4], partner, internal);
  }

  /** The renderer's output for a chart whose subjects are named in
      `names`: every file it writes is an SVG whose name, before the
      extension, contains one of those names. */
  predicate WrittenFor(names: set<string>, written: Directory)
  {
    forall f :: f in written ==>
      && |f| >= 4 && f[|f| - 4..] == ".svg"
      && exists n | n in names :: Contains(f[..|f| - 4], n)
  }

  /** Render, then extract: when each subject name contains `internal`, a
      rendered file survives exactly when its name is hidden (the glob does
      not see it) or `os.remove` fails on it, every match left is one that
      cannot be removed, and every file that does not match is as the
      renderer left it. */
  lemma NoArtifactOutlivesReport(dir: Directory, written: Directory, names: set<string>, internal: string)
    requires forall n :: n in names ==> Contains(n, internal)
    requires WrittenFor(names, written)
    ensures forall f :: f in written ==> (f in Cleaned(dir + written, internal) <==> f[0] == '.' || !written[f].removable)
    ensures forall f :: (f in Cleaned(dir + written, internal) && Matches(internal, f)
      ==> f in dir + written && !(dir + written)[f].removable)
    ensures forall f :: (f in dir + written && !Matches(internal, f)
      ==> f in Cleaned(dir + written, internal) && Cleaned(dir + written, internal)[f] == (dir + written)[f])
  {
    forall f | f in written && f[0] != '.'
      ensures Matches(internal, f)
    {
      var n :| n in names && Contains(f[..|f| - 4], n);
      assert Matches(n, f);
      PartnerArtifactMatches(internal, n, f);
    }
  }

  /** The pattern as the cleanup guarantee needs it: the glob with hidden
      names included (`glob.glob(..., include_hidden=True)`). */
  predicate MatchesIncludingHidden(internal: string, f: string)
    ensures MatchesIncludingHidden(internal, f) <==> GlobMatchesIncludingHidden(internal, f)
  {
    StemTestIsGlobIncludingHidden(internal, f);
    |f| >= 4 && f[|f| - 4..] == ".svg" && Contains(f[..|f| - 4], internal)
  }

  /** The names that pattern finds. */
  function MatchSetIncludingHidden(dir: Directory, internal: string): (found: set<string>)
    ensures forall f :: f in found <==> f in dir && GlobMatchesIncludingHidden(internal, f)
  {
    set f | f in dir && MatchesIncludingHidden(internal, f)
  }

  /** What an extractor using that pattern may return: nothing when it
      finds nothing, otherwise the read result of some newest found file. */
  predicate ExtractedIncludingHidden(dir: Directory, internal: string, r: Option<string>)
  {
    var found := MatchSetIncludingHidden(dir, internal);
    if found == {} then r == None
    else exists t | t in found :: (forall g | g in found :: dir[g].mtime <= dir[t].mtime) && r == dir[t].content
  }

  /** The directory after an extraction that uses that pattern. */
  function CleanedIncludingHidden(dir: Directory, internal: string): Directory
  {
    RemoveFound(dir, MatchSetIncludingHidden(dir, internal))
  }

  /** With hidden names included, every rendered file is found, so the
      extraction has a file to read whenever the renderer wrote one;
      afterwards a rendered file survives exactly when `os.remove` fails on
      it, whatever its name, and every other file is left as it was. */
  lemma HiddenAwareCleanupLeavesNoArtifact(dir: Directory, written: Directory, names: set<string>, internal: string)
    requires forall n :: n in names ==> Contains(n, internal)
    requires WrittenFor(names, written)
    ensures written.Keys <= MatchSetIncludingHidden(dir + written, internal)
    ensures written != map[] && ExtractedIncludingHidden(dir + written, internal, None) ==>
      exists t :: t in MatchSetIncludingHidden(dir + written, internal) && (dir + written)[t].content.None?
    ensures forall f :: f in written ==> (f in CleanedIncludingHidden(dir + written, internal) <==> !written[f].removable)
    ensures forall f :: (f in dir + written && !MatchesIncludingHidden(internal, f)
      ==> f in CleanedIncludingHidden(dir + written, internal)
          && CleanedIncludingHidden(dir + written, internal)[f] == (dir + written)[f])
  {
    forall f | f in written
      ensures MatchesIncludingHidden(internal, f)
    {
      var n :| n in names && Contains(f[..|f| - 4], n);
      ContainsTransitive(f[..|f| - 4], n, internal);
    }
  }

  /** `max(found_files, key=os.path.getmtime)`: a name in `found` whose
      mtime no other name in `found` exceeds. */
  method Newest(dir: Directory, found: set<string>) returns (t: string)
    requires found != {} && found <= dir.Keys
    ensures t in found
    ensures forall g :: g in found ==> dir[g].mtime <= dir[t].mtime
  {
    t :| t in found;
    var rest := found - {t};
    while rest != {}
      invariant rest <= found && t in found
      invariant forall g :: g in found && g !in rest ==> dir[g].mtime <= dir[t].mtime
      decreases rest
    {
      var g :| g in rest;
      if dir[g].mtime > dir[t].mtime {
        t := g;
      }
      rest := rest - {g};
    }
  }
}
