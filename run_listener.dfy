/**
 * DxRunListener: what happens when a Jenkins run completes. The run is
 * turned into a flat payload of pipeline metadata, or nothing is sent
 * (plugin not configured, repository name not derivable, repository
 * denylisted). The Jenkins object model is a plain record of what the
 * listener reads from it.
 */
module RunListener {
  import opened Wrappers
  import opened JavaText
  import DxConfiguration
  import HostnameMapping

  // ---------------------------------------------------------------------
  // Result mapping

  /** hudson.model.Result; None stands for a run without a result (null). */
  datatype BuildResult = Success | Unstable | Failure | NotBuilt | Aborted

  const StatusSuccess := "success"
  const StatusFailure := "failure"
  const StatusCancelled := "cancelled"

  /** mapResult. */
  function MapResult(result: Option<BuildResult>): (status: string)
    ensures status == StatusSuccess <==> result == Some(Success)
    ensures status == StatusCancelled <==> result == Some(Aborted) || result == Some(NotBuilt)
    ensures status == StatusFailure <==> result.None? || result == Some(Failure) || result == Some(Unstable)
  {
    match result
    case None => StatusFailure
    case Some(Success) => StatusSuccess
    case Some(Failure) => StatusFailure
    case Some(Aborted) => StatusCancelled
    case Some(Unstable) => StatusFailure
    case Some(NotBuilt) => StatusCancelled
  }

  /** The status onCompleted reports: mapResult, with "failure" should it be empty. */
  function RunStatus(result: Option<BuildResult>): (status: string)
    ensures status == MapResult(result)
    ensures status in {StatusSuccess, StatusFailure, StatusCancelled}
  {
    var mapped := MapResult(result);
    if mapped == [] then StatusFailure else mapped
  }

  // ---------------------------------------------------------------------
  // Branch-prefix stripping

  const HeadsPrefix := "refs/heads/"
  const RemotesPrefix := "refs/remotes/origin/"
  const OriginPrefix := "origin/"

  /** Every prefix the three replaceFirst calls can remove together. */
  const RemovablePrefixes: set<string> := {
    "", HeadsPrefix, RemotesPrefix, OriginPrefix,
    HeadsPrefix + RemotesPrefix, HeadsPrefix + OriginPrefix, RemotesPrefix + OriginPrefix,
    HeadsPrefix + RemotesPrefix + OriginPrefix
  }

  /** `s.replaceFirst("^" + prefix, "")` for a prefix without regex metacharacters. */
  function ReplaceFirstPrefix(s: string, prefix: string): (r: string)
    ensures StartsWith(s, prefix) ==> s == prefix + r
    ensures !StartsWith(s, prefix) ==> r == s
  {
    if StartsWith(s, prefix) then s[|prefix|..] else s
  }

  /** Three replaceFirst calls on leading patterns, applied in order. */
  function StripInOrder(name: string, first: string, second: string, third: string): (r: string)
    ensures |r| <= |name| && name[|name| - |r|..] == r
  {
    ReplaceFirstPrefix(ReplaceFirstPrefix(ReplaceFirstPrefix(name, first), second), third)
  }

  /** The three replaceFirst calls applied to a branch or target name, in order. */
  function StripRefPrefixes(name: string): string
  {
    StripInOrder(name, HeadsPrefix, RemotesPrefix, OriginPrefix)
  }

  /**
   * Stripping removes a prefix made of the three patterns, each at most
   * once and in order: a leading `refs/heads/`, `refs/remotes/origin/` or
   * `origin/` is always among what goes, and a name with none of them is
   * unchanged.
   */
  lemma {:induction false} StripRemovesKnownPrefix(name: string)
    ensures var r := StripRefPrefixes(name);
      |r| <= |name| && name == name[..|name| - |r|] + r &&
      name[..|name| - |r|] in RemovablePrefixes
    ensures var r := StripRefPrefixes(name); var removed := name[..|name| - |r|];
      (StartsWith(name, HeadsPrefix) ==> StartsWith(removed, HeadsPrefix)) &&
      (StartsWith(name, RemotesPrefix) ==> StartsWith(removed, RemotesPrefix)) &&
      (StartsWith(name, OriginPrefix) ==> StartsWith(removed, OriginPrefix))
    ensures (!StartsWith(name, HeadsPrefix) && !StartsWith(name, RemotesPrefix) &&
             !StartsWith(name, OriginPrefix)) ==> StripRefPrefixes(name) == name
  {
    var p1, p2, p3 := StripParts(name);
    PrefixCombination(p1, p2, p3);
    assert HeadsPrefix[5] != RemotesPrefix[5];
    assert HeadsPrefix[0] != OriginPrefix[0] && RemotesPrefix[0] != OriginPrefix[0];
    LeadingPatternsRemoved(name, HeadsPrefix, RemotesPrefix, OriginPrefix, 5, 0);
  }

  /**
   * For three patterns that pairwise differ at some position, whatever the
   * three calls remove starts with each pattern the name starts with.
   */
  lemma {:induction false} LeadingPatternsRemoved(name: string, first: string, second: string, third: string,
                                                  i: nat, j: nat)
    requires i < |first| && i < |second| && first[i] != second[i]
    requires j < |first| && j < |second| && j < |third| && first[j] != third[j] && second[j] != third[j]
    ensures var r := StripInOrder(name, first, second, third); var removed := name[..|name| - |r|];
      |r| <= |name| && name == removed + r &&
      (StartsWith(name, first) ==> StartsWith(removed, first)) &&
      (StartsWith(name, second) ==> StartsWith(removed, second)) &&
      (StartsWith(name, third) ==> StartsWith(removed, third))
    ensures (!StartsWith(name, first) && !StartsWith(name, second) && !StartsWith(name, third)) ==>
      StripInOrder(name, first, second, third) == name
  {
    var r := StripInOrder(name, first, second, third);
    var p1, p2, p3 := PatternParts(name, first, second, third);
    assert name == (p1 + p2 + p3) + r;
    var removed := name[..|name| - |r|];
    assert removed == p1 + p2 + p3;
    if StartsWith(name, first) {
      assert removed == first + (p2 + p3);
      PrefixOfAppend(first, p2 + p3);
    }
    if StartsWith(name, second) {
      Mismatch(name, first, i);
      assert removed == second + p3;
      PrefixOfAppend(second, p3);
    }
    if StartsWith(name, third) {
      Mismatch(name, first, j);
      Mismatch(name, second, j);
      assert removed == third;
      PrefixOfAppend(third, "");
    }
  }

  /** A string starts with any prefix it was built from. */
  lemma {:induction false} PrefixOfAppend(prefix: string, rest: string)
    ensures StartsWith(prefix + rest, prefix)
  {
    assert (prefix + rest)[..|prefix|] == prefix;
  }

  /**
   * The pieces each replaceFirst call removes: the first call's prefix when
   * the name starts with it, the second's when what is left starts with
   * it, the third's likewise.
   */
  lemma {:induction false} StripParts(name: string) returns (p1: string, p2: string, p3: string)
    ensures var a := ReplaceFirstPrefix(name, HeadsPrefix); var b := ReplaceFirstPrefix(a, RemotesPrefix);
      p1 == (if StartsWith(name, HeadsPrefix) then HeadsPrefix else "") &&
      p2 == (if StartsWith(a, RemotesPrefix) then RemotesPrefix else "") &&
      p3 == (if StartsWith(b, OriginPrefix) then OriginPrefix else "")
    ensures name == p1 + p2 + p3 + StripRefPrefixes(name)
  {
    p1, p2, p3 := PatternParts(name, HeadsPrefix, RemotesPrefix, OriginPrefix);
  }

  /** StripParts for any three patterns. */
  lemma {:induction false} PatternParts(name: string, first: string, second: string, third: string)
    returns (p1: string, p2: string, p3: string)
    ensures var a := ReplaceFirstPrefix(name, first); var b := ReplaceFirstPrefix(a, second);
      p1 == (if StartsWith(name, first) then first else "") &&
      p2 == (if StartsWith(a, second) then second else "") &&
      p3 == (if StartsWith(b, third) then third else "")
    ensures name == p1 + p2 + p3 + StripInOrder(name, first, second, third)
  {
    var a := ReplaceFirstPrefix(name, first);
    var b := ReplaceFirstPrefix(a, second);
    p1 := RemovedPrefix(name, first);
    p2 := RemovedPrefix(a, second);
    p3 := RemovedPrefix(b, third);
    ConcatChain(name, a, b, ReplaceFirstPrefix(b, third), p1, p2, p3);
  }

  /** Three removals in a row remove their concatenation. */
  lemma {:induction false} ConcatChain(name: string, a: string, b: string, r: string,
                                       p1: string, p2: string, p3: string)
    requires name == p1 + a && a == p2 + b && b == p3 + r
    ensures name == p1 + p2 + p3 + r
  {
    assert p1 + (p2 + (p3 + r)) == p1 + p2 + p3 + r;
  }

  /** What one replaceFirst call removes: the prefix, or nothing. */
  lemma {:induction false} RemovedPrefix(s: string, prefix: string) returns (p: string)
    ensures p == (if StartsWith(s, prefix) then prefix else "")
    ensures s == p + ReplaceFirstPrefix(s, prefix)
  {
    p := if StartsWith(s, prefix) then prefix else "";
    assert s == p + ReplaceFirstPrefix(s, prefix);
  }

  lemma {:induction false} PrefixCombination(p1: string, p2: string, p3: string)
    requires p1 in {"", HeadsPrefix} && p2 in {"", RemotesPrefix} && p3 in {"", OriginPrefix}
    ensures p1 + p2 + p3 in RemovablePrefixes
  {
    if p1 == "" {
      assert p1 + p2 + p3 == p2 + p3;
      if p2 == "" {
        assert p2 + p3 == p3;
      } else if p3 == "" {
        assert p2 + p3 == p2;
      }
    } else if p2 == "" {
      assert p1 + p2 + p3 == p1 + p3;
      if p3 == "" {
        assert p1 + p3 == p1;
      }
    } else if p3 == "" {
      assert p1 + p2 + p3 == p1 + p2;
    }
  }

  /** A char that differs from the prefix's rules out a match. */
  lemma {:induction false} Mismatch(s: string, prefix: string, k: nat)
    requires k < |s| && k < |prefix| && s[k] != prefix[k]
    ensures !StartsWith(s, prefix)
  {
    if |prefix| <= |s| {
      assert s[..|prefix|][k] == s[k];
    }
  }

  /** The empty name stays empty; the plain patterns lose their prefix. */
  lemma {:induction false} StripExamples()
    ensures StripRefPrefixes("") == ""
    ensures StripRefPrefixes("refs/heads/main") == "main"
    ensures StripRefPrefixes("refs/remotes/origin/main") == "main"
    ensures StripRefPrefixes("origin/main") == "main"
    ensures StripRefPrefixes("main") == "main"
  {
    var heads := "refs/heads/main";
    assert heads[..|HeadsPrefix|] == HeadsPrefix;
    assert heads[|HeadsPrefix|..] == "main";
    var remotes := "refs/remotes/origin/main";
    Mismatch(remotes, HeadsPrefix, 5);
    assert remotes[..|RemotesPrefix|] == RemotesPrefix;
    assert remotes[|RemotesPrefix|..] == "main";
    var origin := "origin/main";
    Mismatch(origin, HeadsPrefix, 0);
    Mismatch(origin, RemotesPrefix, 0);
    assert origin[..|OriginPrefix|] == OriginPrefix;
    assert origin[|OriginPrefix|..] == "main";
    Mismatch("main", OriginPrefix, 0);
  }

  /** Stripping twice can differ from stripping once. */
  lemma {:induction false} StripNotIdempotent()
    ensures StripRefPrefixes("origin/refs/heads/main") == "refs/heads/main"
    ensures StripRefPrefixes(StripRefPrefixes("origin/refs/heads/main")) == "main"
  {
    var s := "origin/refs/heads/main";
    Mismatch(s, HeadsPrefix, 0);
    Mismatch(s, RemotesPrefix, 0);
    assert s[..|OriginPrefix|] == OriginPrefix;
    assert s[|OriginPrefix|..] == "refs/heads/main";
    StripExamples();
  }

  /** More than one prefix can go in a single pass. */
  lemma {:induction false} StripRemovesTwoPrefixes()
    ensures StripRefPrefixes("refs/heads/origin/x") == "x"
  {
    var s := "refs/heads/origin/x";
    assert s[..|HeadsPrefix|] == HeadsPrefix;
    assert s[|HeadsPrefix|..] == "origin/x";
    Mismatch("origin/x", RemotesPrefix, 0);
    assert "origin/x"[..|OriginPrefix|] == OriginPrefix;
    assert "origin/x"[|OriginPrefix|..] == "x";
  }

  // ---------------------------------------------------------------------
  // Repository short name

  const GitSuffix := ".git"
  const UrlSeparators: set<char> := {'/', ':'}

  /** `replaceAll("\\.git$", "")`: one literal trailing ".git" goes. */
  function StripGitSuffix(url: string): (r: string)
    ensures EndsWith(url, GitSuffix) ==> url == r + GitSuffix
    ensures !EndsWith(url, GitSuffix) ==> r == url
  {
    if EndsWith(url, GitSuffix) then url[..|url| - |GitSuffix|] else url
  }

  /**
   * extractRepositoryName. None stands for the index exception Java
   * raises when the split leaves no part at all.
   */
  function ExtractRepositoryName(url: string): Option<string>
  {
    if url == [] then Some([])
    else
      var parts := Split(StripGitSuffix(url), UrlSeparators);
      if parts == [] then None else Some(parts[|parts| - 1])
  }

  /**
   * The empty URL and a bare ".git" give the empty name; a URL that is
   * only separators once ".git" is gone has no name; any other URL gives
   * its last non-empty segment between '/' and ':'.
   */
  lemma {:induction false} RepositoryNameShape(url: string)
    ensures url == [] ==> ExtractRepositoryName(url) == Some([])
    ensures url != [] && StripGitSuffix(url) == [] ==> ExtractRepositoryName(url) == Some([])
    ensures ExtractRepositoryName(url).None? <==>
      url != [] && StripGitSuffix(url) != [] && AllIn(StripGitSuffix(url), UrlSeparators)
    ensures ExtractRepositoryName(url).Some? && StripGitSuffix(url) != [] ==>
      LastSegment(StripGitSuffix(url), ExtractRepositoryName(url).value, UrlSeparators)
    ensures ExtractRepositoryName(url).Some? ==> NoneIn(ExtractRepositoryName(url).value, UrlSeparators)
  {
    var cleaned := StripGitSuffix(url);
    if url != [] && cleaned != [] {
      SplitLast(cleaned, UrlSeparators);
    }
  }

  /** The last part of `a + [c] + b` is b when c separates and b has no separator. */
  lemma {:induction false} SplitEndsWith(a: string, c: char, b: string, seps: set<char>)
    requires c in seps && b != [] && NoneIn(b, seps)
    ensures var parts := Split(a + [c] + b, seps); parts != [] && parts[|parts| - 1] == b
  {
    PiecesAround(a, c, b, seps);
    PiecesOfSegment(b, seps);
    var pieces := Pieces(a + [c] + b, seps);
    assert pieces == Pieces(a, seps) + [b];
    assert DropTrailingEmpty(pieces) == pieces;
  }

  lemma {:induction false} RepositoryNameExamples()
    ensures ExtractRepositoryName("https://example.com/org/repo.git") == Some("repo")
    ensures ExtractRepositoryName("git@host:org/repo.git") == Some("repo")
    ensures ExtractRepositoryName("") == Some("")
  {
    var https := "https://example.com/org/repo.git";
    assert https[|https| - |GitSuffix|..] == GitSuffix;
    assert StripGitSuffix(https) == "https://example.com/org" + ['/'] + "repo";
    SplitEndsWith("https://example.com/org", '/', "repo", UrlSeparators);
    var ssh := "git@host:org/repo.git";
    assert ssh[|ssh| - |GitSuffix|..] == GitSuffix;
    assert StripGitSuffix(ssh) == "git@host:org" + ['/'] + "repo";
    SplitEndsWith("git@host:org", '/', "repo", UrlSeparators);
  }

  // ---------------------------------------------------------------------
  // Denylist

  const DenylistSeparators: set<char> := {'\n', ','}

  /** `s.trim().toLowerCase()`. */
  function Normalize(s: string): string
  {
    ToLower(Trim(s))
  }

  /** An entry matches when its normal form is non-empty and equals the name's. */
  predicate EntryMatches(entry: string, normalizedRepository: string)
  {
    Normalize(entry) != [] && Normalize(entry) == normalizedRepository
  }

  /** isRepositoryDenied, stated as a search over the denylist entries. */
  predicate Denied(repositoryName: Option<string>, denylistRaw: Option<string>)
  {
    repositoryName.Some? && !IsBlank(repositoryName.value) &&
    denylistRaw.Some? && !IsBlank(denylistRaw.value) &&
    var entries := Split(denylistRaw.value, DenylistSeparators);
    exists j :: 0 <= j < |entries| && EntryMatches(entries[j], Normalize(repositoryName.value))
  }

  /** isRepositoryDenied: the blank checks, then the search. */
  method IsRepositoryDenied(repositoryName: Option<string>, denylistRaw: Option<string>) returns (denied: bool)
    ensures denied == Denied(repositoryName, denylistRaw)
  {
    if repositoryName.None? || IsBlank(repositoryName.value) {
      return false;
    }
    if denylistRaw.None? || IsBlank(denylistRaw.value) {
      return false;
    }
    var normalizedRepository := Normalize(repositoryName.value);
    var entries := Split(denylistRaw.value, DenylistSeparators);
    denied := AnyEntryMatches(entries, normalizedRepository);
  }

  /** isRepositoryDenied's loop over the split denylist. */
  method AnyEntryMatches(entries: seq<string>, normalizedRepository: string) returns (found: bool)
    ensures found <==> exists j :: 0 <= j < |entries| && EntryMatches(entries[j], normalizedRepository)
  {
    var i := 0;
    while i < |entries|
      invariant 0 <= i <= |entries|
      invariant forall j :: 0 <= j < i ==> !EntryMatches(entries[j], normalizedRepository)
    {
      var denylisted := Normalize(entries[i]);
      if denylisted != [] && normalizedRepository == denylisted {
        return true;
      }
      i := i + 1;
    }
    return false;
  }

  /** A name is blank exactly when its normal form is empty. */
  lemma {:induction false} NormalizeEmpty(s: string)
    ensures Normalize(s) == [] <==> IsBlank(s)
  {
    assert |Normalize(s)| == |Trim(s)|;
  }

  /** Matching looks only at the trimmed, lower-cased repository name. */
  lemma {:induction false} DeniedByNormalForm(name: string, name': string, denylistRaw: Option<string>)
    requires Normalize(name) == Normalize(name')
    ensures Denied(Some(name), denylistRaw) == Denied(Some(name'), denylistRaw)
  {
    NormalizeEmpty(name);
    NormalizeEmpty(name');
  }

  /** A string already lower-case and trimmed is its own normal form. */
  lemma {:induction false} NormalizeKeeps(s: string)
    requires s != [] && s[0] > ' ' && s[|s| - 1] > ' '
    requires forall i :: 0 <= i < |s| ==> !('A' <= s[i] <= 'Z')
    ensures Normalize(s) == s
  {
    TrimKeeps(s);
  }

  /** One leading space is trimmed away. */
  lemma {:induction false} TrimLeadingSpace(s: string)
    requires s != [] && s[0] > ' ' && s[|s| - 1] > ' '
    ensures Trim([' '] + s) == s
  {
    assert ([' '] + s)[1..] == s;
  }

  /** A denylist that is a single entry without separators. */
  lemma {:induction false} SingleEntry(s: string)
    requires s != [] && NoneIn(s, DenylistSeparators)
    ensures Split(s, DenylistSeparators) == [s]
  {
    PiecesOfSegment(s, DenylistSeparators);
  }

  /** A denylist of two entries without separators of their own. */
  lemma {:induction false} TwoEntries(a: string, c: char, b: string)
    requires c in DenylistSeparators && b != []
    requires NoneIn(a, DenylistSeparators) && NoneIn(b, DenylistSeparators)
    ensures Split(a + [c] + b, DenylistSeparators) == [a, b]
  {
    var s := a + [c] + b;
    PiecesAround(a, c, b, DenylistSeparators);
    PiecesOfSegment(a, DenylistSeparators);
    PiecesOfSegment(b, DenylistSeparators);
    var pieces := Pieces(s, DenylistSeparators);
    assert pieces == [a] + [b];
    assert pieces[|pieces| - 1] != "";
    assert DropTrailingEmpty(pieces) == pieces;
    assert s != "";
  }

  lemma {:induction false} ExampleRepoPlain()
    ensures NoneIn("example-repo", DenylistSeparators)
    ensures Normalize("example-repo") == "example-repo"
  {
    NormalizeKeeps("example-repo");
  }

  lemma {:induction false} ExampleRepoUpper()
    ensures Normalize("EXAMPLE-repo") == "example-repo"
  {
    var upper := "EXAMPLE-repo";
    TrimKeeps(upper);
    var lower := ToLower(upper);
    forall i | 0 <= i < 7
      ensures lower[i] == "example-repo"[i]
    {
      assert lower[i] == LowerChar(upper[i]);
    }
    assert lower[7..] == "-repo" by {
      forall i | 7 <= i < 12
        ensures lower[i] == upper[i]
      {
        assert lower[i] == LowerChar(upper[i]);
      }
      assert upper[7..] == "-repo";
    }
    assert lower == lower[..7] + lower[7..];
  }

  /** DxRunListenerTest: an exact single entry denies. */
  lemma {:induction false} DenylistExactEntry()
    ensures Denied(Some("example-repo"), Some("example-repo"))
  {
    var repo := "example-repo";
    ExampleRepoPlain();
    SingleEntry(repo);
    assert EntryMatches(repo, Normalize(repo));
  }

  lemma {:induction false} SpacedListParts()
    ensures Split("another, example-repo", DenylistSeparators) == ["another", " example-repo"]
  {
    var spaced := " example-repo";
    assert NoneIn("another", DenylistSeparators);
    assert NoneIn(spaced, DenylistSeparators);
    assert "another, example-repo" == "another" + [','] + spaced;
    TwoEntries("another", ',', spaced);
  }

  lemma {:induction false} SpacedEntryNormal()
    ensures Normalize(" example-repo") == "example-repo"
  {
    var repo := "example-repo";
    ExampleRepoPlain();
    assert " example-repo" == [' '] + repo;
    TrimLeadingSpace(repo);
  }

  /** DxRunListenerTest: an entry after ", " is trimmed before comparing. */
  lemma {:induction false} DenylistSpacedEntry()
    ensures Denied(Some("example-repo"), Some("another, example-repo"))
  {
    ExampleRepoPlain();
    SpacedListParts();
    SpacedEntryNormal();
    assert EntryMatches(" example-repo", Normalize("example-repo"));
  }

  /** DxRunListenerTest: the repository name is lower-cased and entries split at newlines. */
  lemma {:induction false} DenylistCaseAndNewline()
    ensures Denied(Some("EXAMPLE-repo"), Some("example-repo\nsecond"))
  {
    var repo := "example-repo";
    ExampleRepoPlain();
    ExampleRepoUpper();
    assert NoneIn("second", DenylistSeparators);
    assert "example-repo\nsecond" == repo + ['\n'] + "second";
    TwoEntries(repo, '\n', "second");
    var entries := Split("example-repo\nsecond", DenylistSeparators);
    assert EntryMatches(entries[0], Normalize("EXAMPLE-repo"));
    assert !IsBlank("EXAMPLE-repo") && !IsBlank("example-repo\nsecond");
  }

  /** A one-entry denylist denies exactly the non-blank names that entry matches. */
  lemma {:induction false} SingleEntryDenied(name: string, entry: string)
    requires entry != [] && NoneIn(entry, DenylistSeparators)
    ensures Denied(Some(name), Some(entry)) <==> !IsBlank(name) && !IsBlank(entry) && EntryMatches(entry, Normalize(name))
  {
    SingleEntry(entry);
  }

  /** DxRunListenerTest: a different entry does not deny. */
  lemma {:induction false} DenylistOtherEntry()
    ensures !Denied(Some("example-repo"), Some("other"))
  {
    var repo, other := "example-repo", "other";
    assert NoneIn(other, DenylistSeparators);
    SingleEntryDenied(repo, other);
    TrimKeeps(repo);
    TrimKeeps(other);
    assert |Normalize(other)| != |Normalize(repo)|;
  }

  /** DxRunListenerTest: an empty name or an empty list never denies. */
  lemma {:induction false} DenylistBlankInputs(name: string, denylist: string)
    requires IsBlank(name) || IsBlank(denylist)
    ensures !Denied(Some(name), Some(denylist))
  {
  }

  // ---------------------------------------------------------------------
  // Repository URL

  predicate NonBlank(value: Option<string>)
  {
    value.Some? && !IsBlank(value.value)
  }

  /** firstNonEmpty, stated recursively. */
  function FirstNonBlank(values: seq<Option<string>>): string
  {
    if values == [] then ""
    else if NonBlank(values[0]) then values[0].value
    else FirstNonBlank(values[1..])
  }

  /** The result is the empty string exactly when no value is non-null and non-blank. */
  lemma {:induction false} FirstNonBlankEmpty(values: seq<Option<string>>)
    ensures FirstNonBlank(values) == [] <==> forall i :: 0 <= i < |values| ==> !NonBlank(values[i])
  {
    if values != [] {
      FirstNonBlankEmpty(values[1..]);
      assert forall i :: 0 < i < |values| ==> values[i] == values[1..][i - 1];
      if NonBlank(values[0]) {
        assert Trim(values[0].value) != [];
      }
    }
  }

  /** The result is the first non-null, non-blank value, as given. */
  lemma {:induction false} FirstNonBlankAt(values: seq<Option<string>>, k: nat)
    requires k < |values| && NonBlank(values[k])
    requires forall i :: 0 <= i < k ==> !NonBlank(values[i])
    ensures FirstNonBlank(values) == values[k].value
  {
    if k > 0 {
      assert !NonBlank(values[0]);
      assert values[1..][k - 1] == values[k];
      FirstNonBlankAt(values[1..], k - 1);
    }
  }

  /** firstNonEmpty's loop. */
  method FirstNonEmpty(values: seq<Option<string>>) returns (first: string)
    ensures first == FirstNonBlank(values)
  {
    var i := 0;
    while i < |values|
      invariant 0 <= i <= |values|
      invariant FirstNonBlank(values[i..]) == FirstNonBlank(values)
    {
      var value := values[i];
      if value.Some? && !IsBlank(value.value) {
        return value.value;
      }
      assert values[i..][1..] == values[i + 1..];
      i := i + 1;
    }
    return "";
  }

  function EnvLookup(env: map<string, string>, name: string): Option<string>
  {
    if name in env then Some(env[name]) else None
  }

  function UrlCandidates(env: map<string, string>): seq<Option<string>>
  {
    [EnvLookup(env, "GIT_URL"), EnvLookup(env, "GIT_URL_1"), EnvLookup(env, "GIT_URL_2")]
  }

  /** resolveRepositoryUrl; None stands for run.getEnvironment throwing. */
  function RepositoryUrl(environment: Option<map<string, string>>): string
  {
    match environment
    case None => ""
    case Some(env) => FirstNonBlank(UrlCandidates(env))
  }

  /** GIT_URL wins, then GIT_URL_1, then GIT_URL_2, each only when non-blank. */
  lemma {:induction false} RepositoryUrlPrecedence(env: map<string, string>)
    ensures NonBlank(EnvLookup(env, "GIT_URL")) ==> RepositoryUrl(Some(env)) == env["GIT_URL"]
    ensures !NonBlank(EnvLookup(env, "GIT_URL")) && NonBlank(EnvLookup(env, "GIT_URL_1")) ==>
      RepositoryUrl(Some(env)) == env["GIT_URL_1"]
    ensures (!NonBlank(EnvLookup(env, "GIT_URL")) && !NonBlank(EnvLookup(env, "GIT_URL_1")) &&
             NonBlank(EnvLookup(env, "GIT_URL_2"))) ==> RepositoryUrl(Some(env)) == env["GIT_URL_2"]
    ensures RepositoryUrl(Some(env)) == [] <==>
      !NonBlank(EnvLookup(env, "GIT_URL")) && !NonBlank(EnvLookup(env, "GIT_URL_1")) &&
      !NonBlank(EnvLookup(env, "GIT_URL_2"))
  {
    var candidates := UrlCandidates(env);
    FirstNonBlankEmpty(candidates);
    if NonBlank(candidates[0]) {
      FirstNonBlankAt(candidates, 0);
    } else if NonBlank(candidates[1]) {
      FirstNonBlankAt(candidates, 1);
    } else if NonBlank(candidates[2]) {
      FirstNonBlankAt(candidates, 2);
    }
  }

  /** resolveRepositoryUrl. */
  method ResolveRepositoryUrl(environment: Option<map<string, string>>) returns (url: string)
    ensures url == RepositoryUrl(environment)
  {
    url := "";
    if environment.Some? {
      var env := environment.value;
      url := FirstNonEmpty(UrlCandidates(env));
    }
  }

  // ---------------------------------------------------------------------
  // SCM head

  /** The head of the run's SCM revision: a plain head, or a change request. */
  datatype Head = Branch(name: string) | ChangeRequest(name: string, targetName: string, id: string)

  /** The revision of SCMRevisionAction; `text` is its toString(). */
  datatype Revision = Revision(head: Head, text: string)

  datatype ScmFields = ScmFields(branch: string, target: string, prNumber: string, commitSha: string)

  /** Branch, target, PR id and commit read from the revision, names stripped. */
  function ScmFieldsOf(revision: Option<Revision>): ScmFields
  {
    match revision
    case None => ScmFields("", "", "", "")
    case Some(Revision(Branch(name), text)) =>
      ScmFields(StripRefPrefixes(name), "", "", text)
    case Some(Revision(ChangeRequest(name, target, id), text)) =>
      ScmFields(StripRefPrefixes(name), StripRefPrefixes(target), id, text)
  }

  // ---------------------------------------------------------------------
  // Author email

  /** A Jenkins user, through what MailAddressResolver.resolve gives for it. */
  datatype Author = Author(resolvedEmail: Option<string>)

  /** A change-log entry; None stands for an entry without author. */
  datatype ChangeEntry = ChangeEntry(author: Option<Author>)

  /** The resolved address when it is non-null and non-empty. */
  function ResolvedEmail(author: Author): (email: Option<string>)
    ensures email.Some? ==> email.value != [] && author.resolvedEmail == email
    ensures author.resolvedEmail.Some? && author.resolvedEmail.value != [] ==> email == author.resolvedEmail
  {
    match author.resolvedEmail
    case Some(e) => if e != [] then Some(e) else None
    case None => None
  }

  function EntryEmail(entry: ChangeEntry): Option<string>
  {
    match entry.author
    case None => None
    case Some(author) => ResolvedEmail(author)
  }

  /** The first entry of one change set with a usable address. */
  function EntriesEmail(entries: seq<ChangeEntry>): (email: Option<string>)
    ensures email.Some? ==> email.value != []
  {
    if entries == [] then None
    else if EntryEmail(entries[0]).Some? then EntryEmail(entries[0])
    else EntriesEmail(entries[1..])
  }

  /** The first usable address over all change sets, sets in order, entries in order. */
  function ChangeLogEmail(sets: seq<seq<ChangeEntry>>): (email: Option<string>)
    ensures email.Some? ==> email.value != []
  {
    if sets == [] then None
    else if EntriesEmail(sets[0]).Some? then EntriesEmail(sets[0])
    else ChangeLogEmail(sets[1..])
  }

  lemma {:induction false} EntriesEmailIsFirst(entries: seq<ChangeEntry>)
    ensures EntriesEmail(entries).None? <==> forall j :: 0 <= j < |entries| ==> EntryEmail(entries[j]).None?
    ensures EntriesEmail(entries).Some? ==>
      exists j :: (0 <= j < |entries| &&
                   EntriesEmail(entries) == EntryEmail(entries[j]) &&
                   forall j' :: 0 <= j' < j ==> EntryEmail(entries[j']).None?)
  {
    if entries != [] {
      var rest := entries[1..];
      EntriesEmailIsFirst(rest);
      assert forall j :: 0 < j < |entries| ==> entries[j] == rest[j - 1];
      if EntryEmail(entries[0]).None? && EntriesEmail(rest).Some? {
        var j :| 0 <= j < |rest| && EntriesEmail(rest) == EntryEmail(rest[j]) &&
          forall j' :: 0 <= j' < j ==> EntryEmail(rest[j']).None?;
        assert EntriesEmail(entries) == EntryEmail(entries[j + 1]);
        assert forall j' :: 0 < j' < j + 1 ==> entries[j'] == rest[j' - 1];
      }
    }
  }

  /** No change-log address exactly when no entry in any set resolves to one. */
  lemma {:induction false} ChangeLogEmailNone(sets: seq<seq<ChangeEntry>>)
    ensures ChangeLogEmail(sets).None? <==>
      forall i, j :: 0 <= i < |sets| && 0 <= j < |sets[i]| ==> EntryEmail(sets[i][j]).None?
  {
    if sets != [] {
      var rest := sets[1..];
      ChangeLogEmailNone(rest);
      EntriesEmailIsFirst(sets[0]);
      assert forall i :: 0 < i < |sets| ==> sets[i] == rest[i - 1];
    }
  }

  /**
   * The change-log address is the one of the first entry, in set-then-entry
   * order, whose author resolves to a non-empty address.
   */
  lemma {:induction false} ChangeLogEmailIsFirst(sets: seq<seq<ChangeEntry>>)
    ensures ChangeLogEmail(sets).Some? ==>
      exists i, j :: (0 <= i < |sets| && 0 <= j < |sets[i]| &&
                      ChangeLogEmail(sets) == EntryEmail(sets[i][j]) &&
                      (forall i', j' :: 0 <= i' < i && 0 <= j' < |sets[i']| ==> EntryEmail(sets[i'][j']).None?) &&
                      (forall j' :: 0 <= j' < j ==> EntryEmail(sets[i][j']).None?))
  {
    if sets != [] {
      var rest := sets[1..];
      EntriesEmailIsFirst(sets[0]);
      if EntriesEmail(sets[0]).Some? {
        var j :| 0 <= j < |sets[0]| && EntriesEmail(sets[0]) == EntryEmail(sets[0][j]) &&
          forall j' :: 0 <= j' < j ==> EntryEmail(sets[0][j']).None?;
        assert ChangeLogEmail(sets) == EntryEmail(sets[0][j]);
      } else if ChangeLogEmail(rest).Some? {
        ChangeLogEmailIsFirst(rest);
        var i, j :| 0 <= i < |rest| && 0 <= j < |rest[i]| &&
          ChangeLogEmail(rest) == EntryEmail(rest[i][j]) &&
          (forall i', j' :: 0 <= i' < i && 0 <= j' < |rest[i']| ==> EntryEmail(rest[i'][j']).None?) &&
          (forall j' :: 0 <= j' < j ==> EntryEmail(rest[i][j']).None?);
        assert forall i' :: 0 < i' <= i ==> sets[i'] == rest[i' - 1];
        assert ChangeLogEmail(sets) == EntryEmail(sets[i + 1][j]);
      }
    }
  }

  /** The nested change-log loops of onCompleted, both left at the first hit. */
  method ScanChangeLog(sets: seq<seq<ChangeEntry>>) returns (email: string)
    ensures email == OrEmpty(ChangeLogEmail(sets))
  {
    email := "";
    var i := 0;
    while i < |sets|
      invariant 0 <= i <= |sets|
      invariant email == ""
      invariant ChangeLogEmail(sets[i..]) == ChangeLogEmail(sets)
    {
      var entries := sets[i];
      var j := 0;
      while j < |entries|
        invariant 0 <= j <= |entries|
        invariant email == ""
        invariant EntriesEmail(entries[j..]) == EntriesEmail(entries)
      {
        var author := entries[j].author;
        if author.Some? {
          var resolved := author.value.resolvedEmail;
          if resolved.Some? && resolved.value != [] {
            email := resolved.value;
            break;
          }
        }
        assert entries[j..][1..] == entries[j + 1..];
        j := j + 1;
      }
      if email != [] {
        break;
      }
      assert sets[i..][1..] == sets[i + 1..];
      i := i + 1;
    }
  }

  function OrEmpty(value: Option<string>): string
  {
    match value
    case Some(s) => s
    case None => ""
  }

  /**
   * The build user's address: the run's UserIdCause (outer None: no such
   * cause; inner None: a null user id), User.getById without creating,
   * then the resolver.
   */
  function TriggeringUserEmail(userIdCause: Option<Option<string>>, users: map<string, Author>): (email: Option<string>)
    ensures email.Some? ==> email.value != []
    ensures email.Some? ==> userIdCause.Some? && userIdCause.value.Some? && userIdCause.value.value in users
    ensures userIdCause.Some? && userIdCause.value.Some? && userIdCause.value.value in users ==>
      email == ResolvedEmail(users[userIdCause.value.value])
  {
    match userIdCause
    case Some(Some(userId)) => if userId in users then ResolvedEmail(users[userId]) else None
    case _ => None
  }

  /** What the run tells the listener. */
  datatype Run = Run(
    result: Option<BuildResult>,
    startTimeMillis: int,
    duration: int,
    jobFullName: string,
    number: int,
    /** run.getEnvironment; None: it throws. */
    environment: Option<map<string, string>>,
    /** SCMRevisionAction's revision; None: no action or no revision. */
    revision: Option<Revision>,
    /** ContributorMetadataAction's email; None: no action or a null email. */
    contributorEmail: Option<string>,
    isAbstractBuild: bool,
    changeSets: seq<seq<ChangeEntry>>,
    userIdCause: Option<Option<string>>,
    users: map<string, Author>)

  /** The email fallback chain of onCompleted. */
  function AuthorEmail(run: Run): string
  {
    var contributor := OrEmpty(run.contributorEmail);
    var fromLog := if contributor == [] && run.isAbstractBuild then OrEmpty(ChangeLogEmail(run.changeSets)) else contributor;
    if fromLog == [] then OrEmpty(TriggeringUserEmail(run.userIdCause, run.users)) else fromLog
  }

  /**
   * A non-empty contributor address comes first; then, for an AbstractBuild,
   * the change log; then the build user; the address is empty only when
   * all three give nothing.
   */
  lemma {:induction false} AuthorEmailPrecedence(run: Run)
    ensures run.contributorEmail.Some? && run.contributorEmail.value != [] ==>
      AuthorEmail(run) == run.contributorEmail.value
    ensures OrEmpty(run.contributorEmail) == [] && run.isAbstractBuild && ChangeLogEmail(run.changeSets).Some? ==>
      AuthorEmail(run) == ChangeLogEmail(run.changeSets).value
    ensures OrEmpty(run.contributorEmail) == [] && (!run.isAbstractBuild || ChangeLogEmail(run.changeSets).None?) ==>
      AuthorEmail(run) == OrEmpty(TriggeringUserEmail(run.userIdCause, run.users))
    ensures AuthorEmail(run) == [] <==>
      OrEmpty(run.contributorEmail) == [] &&
      (!run.isAbstractBuild || ChangeLogEmail(run.changeSets).None?) &&
      TriggeringUserEmail(run.userIdCause, run.users).None?
  {
  }

  // ---------------------------------------------------------------------
  // The event and its payload

  /** The values onCompleted puts into the payload, but the pipeline source. */
  datatype RunEvent = RunEvent(
    pipelineName: string,
    referenceId: string,
    sourceId: string,
    startedAt: int,
    finishedAt: int,
    status: string,
    repository: string,
    sourceUrl: string,
    headBranch: string,
    baseBranch: string,
    commitSha: string,
    prNumber: string,
    email: string)

  /** A JSON value as the payload holds it. */
  datatype Value = Text(text: string) | Number(number: int)

  /** The payload's keys; JsonName gives each one's name in the JSON object. */
  datatype PayloadKey =
    | PipelineNameKey | PipelineSourceKey | ReferenceIdKey | SourceIdKey
    | StartedAtKey | FinishedAtKey | StatusKey | RepositoryKey | SourceUrlKey
    | HeadBranchKey | BaseBranchKey | CommitShaKey | PrNumberKey | EmailKey

  function JsonName(key: PayloadKey): string
  {
    match key
    case PipelineNameKey => "pipeline_name"
    case PipelineSourceKey => "pipeline_source"
    case ReferenceIdKey => "reference_id"
    case SourceIdKey => "source_id"
    case StartedAtKey => "started_at"
    case FinishedAtKey => "finished_at"
    case StatusKey => "status"
    case RepositoryKey => "repository"
    case SourceUrlKey => "source_url"
    case HeadBranchKey => "head_branch"
    case BaseBranchKey => "base_branch"
    case CommitShaKey => "commit_sha"
    case PrNumberKey => "pr_number"
    case EmailKey => "email"
  }

  /**
   * Distinct keys have distinct JSON names, so the payload keyed by
   * PayloadKey holds what the JSON object keyed by those names holds.
   */
  lemma {:induction false} JsonNamesDistinct(key: PayloadKey, other: PayloadKey)
    ensures JsonName(key) == JsonName(other) ==> key == other
  {
  }

  /** The flat JSON object, keyed by PayloadKey. */
  type Payload = map<PayloadKey, Value>

  /** Keys the payload always has; the other two are optional. */
  predicate AlwaysPresent(key: PayloadKey)
  {
    key != BaseBranchKey && key != PrNumberKey
  }

  /** The job name, or `jenkins-` followed by it when it is empty: never empty. */
  function PipelineName(jobName: string): (r: string)
    ensures r != []
    ensures jobName != [] ==> r == jobName
  {
    if jobName == [] then "jenkins-" + jobName else jobName
  }

  function ReferenceId(jobName: string, number: int): string
  {
    jobName + " #" + IntToString(number)
  }

  /**
   * onCompleted up to the send: None when nothing is sent (plugin not
   * configured, no repository name, repository denylisted).
   */
  function CompletedEvent(run: Run, configured: bool, denylist: Option<string>): (event: Option<RunEvent>)
    ensures event.Some? <==>
      (configured &&
       ExtractRepositoryName(RepositoryUrl(run.environment)).Some? &&
       !Denied(ExtractRepositoryName(RepositoryUrl(run.environment)), denylist))
  {
    if !configured then None
    else
      var url := RepositoryUrl(run.environment);
      match ExtractRepositoryName(url)
      case None => None
      case Some(repository) =>
        if Denied(Some(repository), denylist) then None
        else
          Some(EventOf(run, repository, url))
  }

  /** What onCompleted reads from the run before it derives the repository name. */
  datatype RunValues = RunValues(scm: ScmFields, email: string, startedAt: int, finishedAt: int, status: string)

  /** The SCM fields, author address, times and status of a run. */
  function RunValuesOf(run: Run): RunValues
  {
    RunValues(ScmFieldsOf(run.revision), AuthorEmail(run),
              EpochSeconds(run.startTimeMillis), EpochSeconds(run.startTimeMillis + run.duration),
              RunStatus(run.result))
  }

  /** The event from the values read, the job and the repository. */
  function EventFrom(jobName: string, number: int, values: RunValues, repository: string, url: string): RunEvent
  {
    RunEvent(
      PipelineName(jobName),
      ReferenceId(jobName, number),
      jobName,
      values.startedAt,
      values.finishedAt,
      values.status,
      repository,
      url,
      values.scm.branch,
      values.scm.target,
      values.scm.commitSha,
      values.scm.prNumber,
      values.email)
  }

  /** The values onCompleted collects once the repository name is known. */
  function EventOf(run: Run, repository: string, url: string): RunEvent
  {
    EventFrom(run.jobFullName, run.number, RunValuesOf(run), repository, url)
  }

  /** The payload put together from the event and the pipeline source. */
  function PayloadOf(event: RunEvent, pipelineSource: string): (payload: Payload)
    ensures forall key :: AlwaysPresent(key) ==> key in payload
    ensures BaseBranchKey in payload <==> event.baseBranch != []
    ensures PrNumberKey in payload <==> event.prNumber != []
  {
    var p := PutIfNonEmpty(CorePayload(event, pipelineSource), BaseBranchKey, event.baseBranch);
    var p := PutIfNonEmpty(p[CommitShaKey := Text(event.commitSha)], PrNumberKey, event.prNumber);
    p[EmailKey := Text(event.email)]
  }

  /** The puts up to head_branch. */
  function CorePayload(event: RunEvent, pipelineSource: string): Payload
  {
    map[
      PipelineNameKey := Text(event.pipelineName),
      PipelineSourceKey := Text(pipelineSource),
      ReferenceIdKey := Text(event.referenceId),
      SourceIdKey := Text(event.sourceId),
      StartedAtKey := Number(event.startedAt),
      FinishedAtKey := Number(event.finishedAt),
      StatusKey := Text(event.status),
      RepositoryKey := Text(event.repository),
      SourceUrlKey := Text(event.sourceUrl),
      HeadBranchKey := Text(event.headBranch)]
  }

  /** An optional key: put only when the value is non-empty. */
  function PutIfNonEmpty(payload: Payload, key: PayloadKey, value: string): Payload
  {
    if value != [] then payload[key := Text(value)] else payload
  }

  /** The event's times are the run's bounds in whole seconds, in order for a non-negative duration. */
  lemma {:induction false} EventTimes(run: Run, configured: bool, denylist: Option<string>)
    requires CompletedEvent(run, configured, denylist).Some?
    ensures var event := CompletedEvent(run, configured, denylist).value;
      event.startedAt == EpochSeconds(run.startTimeMillis) &&
      event.finishedAt == EpochSeconds(run.startTimeMillis + run.duration) &&
      (run.duration >= 0 ==> event.finishedAt >= event.startedAt)
  {
    var url := RepositoryUrl(run.environment);
    var event := CompletedEvent(run, configured, denylist).value;
    assert event == EventOf(run, ExtractRepositoryName(url).value, url);
    var values := RunValuesOf(run);
    assert event.startedAt == values.startedAt && event.finishedAt == values.finishedAt;
    if run.duration >= 0 {
      EpochSecondsMonotone(run.startTimeMillis, run.startTimeMillis + run.duration);
    }
  }

  /**
   * Target and PR id come only from a change-request head; the head branch
   * is the stripped head name; the commit is the revision's text, or empty
   * without a revision.
   */
  lemma {:induction false} EventScmFields(run: Run, configured: bool, denylist: Option<string>)
    requires CompletedEvent(run, configured, denylist).Some?
    ensures var event := CompletedEvent(run, configured, denylist).value;
      (event.baseBranch != [] || event.prNumber != [] ==>
         run.revision.Some? && run.revision.value.head.ChangeRequest?) &&
      (run.revision.None? ==> event.headBranch == [] && event.commitSha == []) &&
      (run.revision.Some? ==> event.headBranch == StripRefPrefixes(run.revision.value.head.name) &&
                              event.commitSha == run.revision.value.text) &&
      (run.revision.Some? && run.revision.value.head.ChangeRequest? ==>
         event.baseBranch == StripRefPrefixes(run.revision.value.head.targetName) &&
         event.prNumber == run.revision.value.head.id)
  {
    var url := RepositoryUrl(run.environment);
    var event := CompletedEvent(run, configured, denylist).value;
    assert event == EventOf(run, ExtractRepositoryName(url).value, url);
    var scm := ScmFieldsOf(run.revision);
    assert event.headBranch == scm.branch && event.baseBranch == scm.target &&
           event.commitSha == scm.commitSha && event.prNumber == scm.prNumber;
  }

  /** The reference id is the job name, " #" and the run number in decimal. */
  lemma {:induction false} ReferenceIdShape(jobName: string, number: nat)
    ensures var id := ReferenceId(jobName, number);
      |id| > |jobName| + 2 && id[..|jobName|] == jobName && id[|jobName|..|jobName| + 2] == " #" &&
      (forall k :: |jobName| + 2 <= k < |id| ==> '0' <= id[k] <= '9') &&
      DigitsValue(id[|jobName| + 2..]) == number &&
      (id[|jobName| + 2] == '0' ==> number == 0)
  {
    var id := ReferenceId(jobName, number);
    var digits := NatToString(number);
    assert id == jobName + " #" + digits;
    assert id[|jobName| + 2..] == digits;
    NatToStringValue(number);
    forall k | |jobName| + 2 <= k < |id|
      ensures '0' <= id[k] <= '9'
    {
      assert id[k] == digits[k - |jobName| - 2];
    }
  }

  /** The run of the end-to-end scenario below. */
  function ScenarioRun(): Run
  {
    Run(Some(Success), 1000, 500, "example/job", 42, Some(map[]), None, None, false, [], None, map[])
  }

  lemma {:induction false} ScenarioReferenceId()
    ensures ReferenceId("example/job", 42) == "example/job #42"
  {
    assert NatToString(4) == "4";
    assert NatToString(42) == NatToString(4) + [DigitChar(2)];
  }

  /** The scenario's run has no repository URL. */
  lemma {:induction false} ScenarioRepositoryUrl()
    ensures RepositoryUrl(ScenarioRun().environment) == ""
  {
    var env: map<string, string> := map[];
    assert UrlCandidates(env) == [None, None, None];
    FirstNonBlankEmpty(UrlCandidates(env));
  }

  /** An empty repository name is never denied. */
  lemma {:induction false} EmptyNameNotDenied(denylist: Option<string>)
    ensures !Denied(Some(""), denylist)
  {
    assert IsBlank("");
  }

  /**
   * A successful run of `example/job` #42 that started at 1000 ms and took
   * 500 ms, without SCM, contributor, change-log or cause data and with an
   * empty denylist, is sent with these values.
   */
  lemma {:induction false} EndToEndScenario()
    ensures CompletedEvent(ScenarioRun(), true, Some("")) ==
      Some(RunEvent("example/job", "example/job #42", "example/job", 1, 1, StatusSuccess,
                    "", "", "", "", "", "", ""))
  {
    ScenarioReferenceId();
    ScenarioRepositoryUrl();
    assert ExtractRepositoryName("") == Some("");
    EmptyNameNotDenied(Some(""));
    assert EpochSeconds(1000) == 1 && EpochSeconds(1500) == 1;
    assert AuthorEmail(ScenarioRun()) == "";
  }

  /** The scenario's payload has neither base_branch nor pr_number. */
  lemma {:induction false} EndToEndPayload(pipelineSource: string)
    ensures var payload := PayloadOf(CompletedEvent(ScenarioRun(), true, Some("")).value, pipelineSource);
      BaseBranchKey !in payload && PrNumberKey !in payload &&
      payload[StartedAtKey] == Number(1) && payload[FinishedAtKey] == Number(1) &&
      payload[ReferenceIdKey] == Text("example/job #42") && payload[StatusKey] == Text(StatusSuccess) &&
      payload[PipelineSourceKey] == Text(pipelineSource)
  {
    EndToEndScenario();
    var event := CompletedEvent(ScenarioRun(), true, Some("")).value;
    assert event.baseBranch == [] && event.prNumber == [];
  }

  // ---------------------------------------------------------------------
  // onCompleted

  /** onCompleted's SCM block: the head's names and id, the revision's text, names stripped. */
  method ReadScm(revision: Option<Revision>) returns (scm: ScmFields)
    ensures scm == ScmFieldsOf(revision)
  {
    var commitSha := "";
    var branchName := "";
    var targetBranch := "";
    var prNumber := "";
    if revision.Some? {
      match revision.value.head {
        case ChangeRequest(name, target, id) =>
          branchName := name;
          targetBranch := target;
          prNumber := id;
        case Branch(name) =>
          if branchName == [] {
            branchName := name;
          }
      }
      if commitSha == [] {
        commitSha := revision.value.text;
      }
    }
    if branchName != [] {
      branchName := StripRefPrefixes(branchName);
    }
    if targetBranch != [] {
      targetBranch := StripRefPrefixes(targetBranch);
    }
    scm := ScmFields(branchName, targetBranch, prNumber, commitSha);
  }

  /** onCompleted's email block: contributor, change log, build user. */
  method ReadAuthorEmail(run: Run) returns (userEmail: string)
    ensures userEmail == AuthorEmail(run)
  {
    userEmail := "";
    if run.contributorEmail.Some? {
      userEmail := run.contributorEmail.value;
    }
    if userEmail == [] && run.isAbstractBuild {
      userEmail := ScanChangeLog(run.changeSets);
    }
    if userEmail == [] {
      var fallbackEmail := TriggeringUserEmail(run.userIdCause, run.users);
      if fallbackEmail.Some? {
        userEmail := fallbackEmail.value;
      }
    }
  }

  /**
   * onCompleted once the configuration is known to be set: every value of
   * the payload but the pipeline source, or None when the repository name
   * cannot be derived or is denylisted.
   */
  method BuildEvent(run: Run, denylist: Option<string>) returns (event: Option<RunEvent>)
    ensures event == CompletedEvent(run, true, denylist)
  {
    var repoUrl := ResolveRepositoryUrl(run.environment);
    var values := ReadRun(run);
    var repositoryName := ExtractRepositoryName(repoUrl);
    if repositoryName.None? {
      return None;
    }
    var denied := IsRepositoryDenied(repositoryName, denylist);
    if denied {
      return None;
    }
    var named := NameEvent(run.jobFullName, run.number, values, repositoryName.value, repoUrl);
    event := Some(named);
  }

  /** The SCM block, the author-address block, the times and the status, in the source's order. */
  method ReadRun(run: Run) returns (values: RunValues)
    ensures values == RunValuesOf(run)
  {
    var scm := ReadScm(run.revision);
    var userEmail := ReadAuthorEmail(run);
    var start := EpochSeconds(run.startTimeMillis);
    var finish := EpochSeconds(run.startTimeMillis + run.duration);
    var status := MapResult(run.result);
    if status == [] {
      status := StatusFailure;
    }
    values := RunValues(scm, userEmail, start, finish, status);
  }

  /** The pipeline name, reference id and source id, put together with what was read. */
  method NameEvent(jobName: string, number: int, values: RunValues, repository: string, repoUrl: string)
    returns (event: RunEvent)
    ensures event == EventFrom(jobName, number, values, repository, repoUrl)
  {
    var pipelineName := jobName;
    if pipelineName == [] {
      pipelineName := "jenkins-" + jobName;
    }
    var referenceId := jobName + " #" + IntToString(number);
    var sourceId := jobName;
    event := RunEvent(pipelineName, referenceId, sourceId, values.startedAt, values.finishedAt, values.status,
                      repository, repoUrl, values.scm.branch, values.scm.target, values.scm.commitSha,
                      values.scm.prNumber, values.email);
  }

  /** onCompleted's successive payload.put calls. */
  method AssemblePayload(event: RunEvent, pipelineSource: string) returns (payload: Payload)
    ensures payload == PayloadOf(event, pipelineSource)
  {
    payload := map[];
    payload := payload[PipelineNameKey := Text(event.pipelineName)];
    payload := payload[PipelineSourceKey := Text(pipelineSource)];
    payload := payload[ReferenceIdKey := Text(event.referenceId)];
    payload := payload[SourceIdKey := Text(event.sourceId)];
    payload := payload[StartedAtKey := Number(event.startedAt)];
    payload := payload[FinishedAtKey := Number(event.finishedAt)];
    payload := payload[StatusKey := Text(event.status)];
    payload := payload[RepositoryKey := Text(event.repository)];
    payload := payload[SourceUrlKey := Text(event.sourceUrl)];
    payload := payload[HeadBranchKey := Text(event.headBranch)];
    ghost var core := payload;
    if event.baseBranch != [] {
      payload := payload[BaseBranchKey := Text(event.baseBranch)];
    }
    assert payload == PutIfNonEmpty(core, BaseBranchKey, event.baseBranch);
    payload := payload[CommitShaKey := Text(event.commitSha)];
    ghost var withCommit := payload;
    if event.prNumber != [] {
      payload := payload[PrNumberKey := Text(event.prNumber)];
    }
    assert payload == PutIfNonEmpty(withCommit, PrNumberKey, event.prNumber);
    payload := payload[EmailKey := Text(event.email)];
  }

  /**
   * onCompleted. `config` is DxGlobalConfiguration.get() (null: no
   * configuration); the service is the hostname mapping cache, looked up
   * twice, the second lookup feeding the payload. The result is the
   * payload handed to DxDataSender.send, or None when nothing is sent.
   */
  method OnCompleted(run: Run, config: DxConfiguration.DxGlobalConfiguration?,
                     service: HostnameMapping.HostnameMappingService,
                     resource: HostnameMapping.Resource, host: HostnameMapping.Host)
    returns (sent: Option<Payload>)
    requires service.Valid()
    modifies service
    ensures service.Valid()
    ensures var event := CompletedEvent(run, config != null && config.IsConfigured(),
                                        if config != null then config.GetRepositoryDenylist() else None);
      var table := HostnameMapping.TableAfterInit(old(service.initialized), old(service.hostnameMapping), resource);
      (event.None? ==> sent.None? && unchanged(service)) &&
      (event.Some? ==>
         sent == Some(PayloadOf(event.value, HostnameMapping.Resolve(table, HostnameMapping.CurrentHostname(host)))) &&
         service.initialized && service.hostnameMapping == table)
  {
    if config == null || !config.IsConfigured() {
      return None;
    }
    var event := BuildEvent(run, config.GetRepositoryDenylist());
    if event.None? {
      return None;
    }
    var loggedSource := service.GetPipelineSourceForCurrentHost(resource, host);
    var pipelineSource := service.GetPipelineSourceForCurrentHost(resource, host);
    var payload := AssemblePayload(event.value, pipelineSource);
    sent := Some(payload);
  }
}
