/**
 * The download stage of both scripts, without the network: which URL lines
 * of each list file are requested, into which folder, and under which file
 * name each response is saved.
 *
 * Whether the request for a URL succeeds (`requests.get` followed by
 * `raise_for_status`) is the parameter `ok`.
 */
module Download {
  import opened Wrappers
  import opened Text

  /** The literal part of the pattern `tavg1_2d.{20}`. */
  const Prefix: string := "tavg1_2d"

  /** Length of a match: the prefix and the 20 characters after it. */
  const MatchLength: nat := 28

  /**
   * The pattern `tavg1_2d.{20}` matches `url` at index `i`: the prefix, then
   * 20 characters none of which is '\n' (the regex `.` excludes a newline).
   */
  predicate MatchAt(url: string, i: nat) {
    i + MatchLength <= |url|
    && url[i..i + 8] == Prefix
    && forall j :: i + 8 <= j < i + MatchLength ==> url[j] != '\n'
  }

  /** `re.search` reports the leftmost match. */
  predicate FirstMatchAt(url: string, i: nat) {
    MatchAt(url, i) && forall j :: 0 <= j < i ==> !MatchAt(url, j)
  }

  ghost predicate NoMatch(url: string) {
    forall i: nat :: !MatchAt(url, i)
  }

  function SearchFrom(url: string, i: nat): (m: Option<nat>)
    requires i <= |url|
    ensures m.Some? ==> i <= m.value && MatchAt(url, m.value)
    ensures m.Some? ==> forall j :: i <= j < m.value ==> !MatchAt(url, j)
    ensures m.None? ==> forall j: nat :: i <= j ==> !MatchAt(url, j)
    decreases |url| - i
  {
    if i + MatchLength > |url| then None
    else if MatchAt(url, i) then Some(i)
    else SearchFrom(url, i + 1)
  }

  /** `re.search(r'tavg1_2d.{20}', url)`, as the start index of the match. */
  function Search(url: string): (m: Option<nat>)
    ensures m.Some? ==> FirstMatchAt(url, m.value)
    ensures m.None? <==> NoMatch(url)
  {
    SearchFrom(url, 0)
  }

  /**
   * `Merra2_to_EPW.py`'s file name rule: the first `tavg1_2d` + 20-character
   * match, or the URL's base name when the pattern does not occur.
   */
  function DownloadName(url: string): (name: string)
    ensures forall i: nat :: FirstMatchAt(url, i) ==> name == url[i..i + MatchLength]
    ensures forall i: nat :: FirstMatchAt(url, i) ==> |name| == MatchLength && StartsWith(name, Prefix)
    ensures NoMatch(url) ==> name == Basename(url)
  {
    match Search(url)
    case Some(i) =>
      FirstMatchIsUnique(url, i);
      assert url[i..i + MatchLength][..8] == url[i..i + 8];
      url[i..i + MatchLength]
    case None => Basename(url)
  }

  lemma FirstMatchIsUnique(url: string, i: nat)
    requires FirstMatchAt(url, i)
    ensures forall j: nat :: FirstMatchAt(url, j) ==> j == i
  {
    forall j: nat | FirstMatchAt(url, j) ensures j == i {
    }
  }

  /** The one failure of the naming step in `Merra2_to_EPW_1.py`. */
  datatype NameError = AttributeError(url: string)

  /**
   * `Merra2_to_EPW_1.py`'s file name rule: `match.group(0)` with no fallback,
   * so a URL without a match raises (`None` has no attribute `group`).
   */
  function StrictDownloadName(url: string): (r: Result<string, NameError>)
    ensures r.Failure? <==> NoMatch(url)
    ensures r.Failure? ==> r.error == AttributeError(url)
    ensures r.Success? ==> r.value == DownloadName(url)
  {
    match Search(url)
    case Some(i) => Success(url[i..i + MatchLength])
    case None => Failure(AttributeError(url))
  }

  // ---------------------------------------------------------------------
  // URL list files
  // ---------------------------------------------------------------------

  /** `file.read().splitlines()[1:]`: every line but the first. */
  function Urls(content: string): seq<string> {
    var lines := SplitLines(content);
    if lines == [] then [] else lines[1..]
  }

  /** A list file written as a first line and then URLs yields exactly those URLs. */
  lemma UrlsSkipFirstLine(first: string, urls: seq<string>)
    requires NoLineBreak(first)
    requires forall i :: 0 <= i < |urls| ==> NoLineBreak(urls[i])
    ensures Urls(JoinLines([first] + urls)) == urls
  {
    var lines := [first] + urls;
    assert forall i :: 0 <= i < |lines| ==> NoLineBreak(lines[i]);
    SplitJoinLines(lines);
    assert lines[1..] == urls;
  }

  /** One entry of the `files_to_folders` dictionary: a URL file's text and its folder. */
  datatype UrlList = UrlList(content: string, targetDir: string)

  /** One `download_file(url, target_dir)` submission; `limited` is the snow pool. */
  datatype Job = Job(url: string, targetDir: string, limited: bool)

  function ListJobs(l: UrlList): (jobs: seq<Job>)
    ensures |jobs| == |Urls(l.content)|
  {
    var urls := Urls(l.content);
    var limited := Contains(l.targetDir, "Snow");
    seq(|urls|, j requires 0 <= j < |urls| => Job(urls[j], l.targetDir, limited))
  }

  /** The submissions of the download loop, list file by list file in dictionary order. */
  function Jobs(lists: seq<UrlList>): seq<Job> {
    if lists == [] then [] else ListJobs(lists[0]) + Jobs(lists[1..])
  }

  /** The submission for line `j` of a list file. */
  lemma ListJobAt(l: UrlList, j: nat)
    requires 1 <= j < |SplitLines(l.content)|
    ensures j - 1 < |ListJobs(l)|
    ensures ListJobs(l)[j - 1] == Job(SplitLines(l.content)[j], l.targetDir, Contains(l.targetDir, "Snow"))
  {
  }

  lemma JobsFromIndex(lists: seq<UrlList>, p: nat)
    requires p < |lists|
    ensures Jobs(lists[p..]) == ListJobs(lists[p]) + Jobs(lists[p + 1..])
  {
    assert lists[p..][1..] == lists[p + 1..];
  }

  lemma FirstListSubmitted(lists: seq<UrlList>, k: nat)
    requires 0 < |lists| && k < |ListJobs(lists[0])|
    ensures ListJobs(lists[0])[k] in Jobs(lists)
  {
    assert Jobs(lists) == ListJobs(lists[0]) + Jobs(lists[1..]);
    assert ListJobs(lists[0])[k] in ListJobs(lists[0]);
  }

  lemma LaterListsSubmitted(lists: seq<UrlList>, job: Job)
    requires 0 < |lists| && job in Jobs(lists[1..])
    ensures job in Jobs(lists)
  {
    assert Jobs(lists) == ListJobs(lists[0]) + Jobs(lists[1..]);
  }

  /** Every submission built for a list file is among the loop's submissions. */
  lemma {:induction false} ListedJobSubmitted(lists: seq<UrlList>, p: nat, k: nat)
    requires p < |lists| && k < |ListJobs(lists[p])|
    ensures ListJobs(lists[p])[k] in Jobs(lists)
  {
    if p == 0 {
      FirstListSubmitted(lists, k);
    } else {
      assert lists[1..][p - 1] == lists[p];
      ListedJobSubmitted(lists[1..], p - 1, k);
      LaterListsSubmitted(lists, ListJobs(lists[p])[k]);
    }
  }

  /** Every line but the first of every list file is submitted, into its list's folder. */
  lemma EveryUrlSubmitted(lists: seq<UrlList>, p: nat, j: nat)
    requires p < |lists|
    requires 1 <= j < |SplitLines(lists[p].content)|
    ensures Job(SplitLines(lists[p].content)[j], lists[p].targetDir, Contains(lists[p].targetDir, "Snow")) in Jobs(lists)
  {
    ListJobAt(lists[p], j);
    ListedJobSubmitted(lists, p, j - 1);
  }

  /** Conversely, every submission is a URL line of some list file, with that list's folder. */
  lemma {:induction false} OnlyListedUrlsSubmitted(lists: seq<UrlList>, job: Job)
    requires job in Jobs(lists)
    ensures exists p :: 0 <= p < |lists| && job.targetDir == lists[p].targetDir && job.url in Urls(lists[p].content)
    ensures job.limited <==> Contains(job.targetDir, "Snow")
  {
    if job in ListJobs(lists[0]) {
      assert job.targetDir == lists[0].targetDir;
    } else {
      OnlyListedUrlsSubmitted(lists[1..], job);
      var p :| 0 <= p < |lists[1..]| && job.targetDir == lists[1..][p].targetDir && job.url in Urls(lists[1..][p].content);
      assert lists[1..][p] == lists[p + 1];
    }
  }

  /**
   * `Merra2_to_EPW.py`'s loop over `files_to_folders`: every URL of every
   * list is submitted, snow URLs to the five-worker pool.
   */
  method SubmitDownloads(lists: seq<UrlList>) returns (jobs: seq<Job>)
    ensures jobs == Jobs(lists)
  {
    jobs := [];
    for p := 0 to |lists|
      invariant jobs + Jobs(lists[p..]) == Jobs(lists)
    {
      JobsFromIndex(lists, p);
      var submitted := SubmitList(lists[p]);
      assert (jobs + submitted) + Jobs(lists[p + 1..]) == jobs + (submitted + Jobs(lists[p + 1..]));
      jobs := jobs + submitted;
    }
  }

  /** The inner loop: one submission per URL of one list file. */
  method SubmitList(l: UrlList) returns (submitted: seq<Job>)
    ensures submitted == ListJobs(l)
  {
    var urls := Urls(l.content);
    var limited := Contains(l.targetDir, "Snow");
    submitted := [];
    for j := 0 to |urls|
      invariant submitted == ListJobs(l)[..j]
    {
      assert ListJobs(l)[..j + 1] == ListJobs(l)[..j] + [Job(urls[j], l.targetDir, limited)];
      submitted := submitted + [Job(urls[j], l.targetDir, limited)];
    }
  }

  /** Where `download_file` saves one response: `os.path.join(target_dir, filename)`. */
  function SavePath(job: Job): string {
    PathJoin(job.targetDir, DownloadName(job.url))
  }

  /** The files `Merra2_to_EPW.py` writes: one per submission whose request succeeds. */
  function SavedPaths(jobs: seq<Job>, ok: string -> bool): seq<string> {
    if jobs == [] then []
    else (if ok(jobs[0].url) then [SavePath(jobs[0])] else []) + SavedPaths(jobs[1..], ok)
  }

  /** A saved file is named by the download rule, whatever the folder. */
  lemma SavedUnderDownloadName(job: Job)
    ensures Basename(SavePath(job)) == Basename(DownloadName(job.url))
  {
    BasenameOfJoin(job.targetDir, DownloadName(job.url));
  }

  // ---------------------------------------------------------------------
  // Merra2_to_EPW_1.py: sequential downloads that stop at an unnamed URL
  // ---------------------------------------------------------------------

  /** The files written, and the URL whose uncaught naming error ended the loop. */
  datatype Fetched = Fetched(saved: seq<string>, failure: Option<string>)

  function Prepend(saved: seq<string>, f: Fetched): Fetched {
    Fetched(saved + f.saved, f.failure)
  }

  /**
   * `get_data` over a sequence of submissions: a failed request is reported
   * and skipped; a successful one with no pattern match raises an error that
   * the `RequestException` handler does not catch, which ends the whole loop.
   */
  function FetchAll(jobs: seq<Job>, ok: string -> bool): Fetched {
    if jobs == [] then Fetched([], None)
    else if !ok(jobs[0].url) then FetchAll(jobs[1..], ok)
    else
      match StrictDownloadName(jobs[0].url)
      case Failure(_) => Fetched([], Some(jobs[0].url))
      case Success(name) => Prepend([PathJoin(jobs[0].targetDir, name)], FetchAll(jobs[1..], ok))
  }

  /** `Merra2_to_EPW_1.py`'s `get_data` loop over the list files and their URLs. */
  method GetData(lists: seq<UrlList>, ok: string -> bool) returns (saved: seq<string>, failure: Option<string>)
    ensures Fetched(saved, failure) == FetchAll(Jobs(lists), ok)
  {
    saved := [];
    for p := 0 to |lists|
      invariant Prepend(saved, FetchAll(Jobs(lists[p..]), ok)) == FetchAll(Jobs(lists), ok)
    {
      assert lists[p..][1..] == lists[p + 1..];
      ghost var rest := Jobs(lists[p + 1..]);
      assert Jobs(lists[p..]) == ListJobs(lists[p]) + rest;
      var written, failed := FetchList(lists[p], ok, rest);
      saved := saved + written;
      if failed.Some? {
        failure := failed;
        return;
      }
    }
    failure := None;
  }

  /**
   * The inner loop over one list file's URLs; `rest` stands for the
   * submissions of the later list files, which an error skips.
   */
  method FetchList(l: UrlList, ok: string -> bool, ghost rest: seq<Job>) returns (saved: seq<string>, failure: Option<string>)
    ensures failure.Some? ==> Fetched(saved, failure) == FetchAll(ListJobs(l) + rest, ok)
    ensures failure.None? ==> Prepend(saved, FetchAll(rest, ok)) == FetchAll(ListJobs(l) + rest, ok)
  {
    var urls := Urls(l.content);
    ghost var listed := ListJobs(l);
    saved := [];
    for j := 0 to |urls|
      invariant Prepend(saved, FetchAll(listed[j..] + rest, ok)) == FetchAll(listed + rest, ok)
    {
      ghost var todo := listed[j..] + rest;
      assert todo[0] == listed[j] && listed[j].url == urls[j] && listed[j].targetDir == l.targetDir;
      assert todo[1..] == listed[j + 1..] + rest;
      if ok(urls[j]) {
        var name := StrictDownloadName(urls[j]);
        if name.Failure? {
          failure := Some(urls[j]);
          return;
        }
        saved := saved + [PathJoin(l.targetDir, name.value)];
      }
    }
    assert listed[|urls|..] + rest == rest;
    failure := None;
  }

  /** Index of the first successfully requested URL without a match (`|jobs|` if none). */
  function FirstUnnamed(jobs: seq<Job>, ok: string -> bool): (k: nat)
    ensures k <= |jobs|
    ensures forall i :: 0 <= i < k ==> !(ok(jobs[i].url) && NoMatch(jobs[i].url))
    ensures k < |jobs| ==> ok(jobs[k].url) && NoMatch(jobs[k].url)
  {
    if jobs == [] then 0
    else if ok(jobs[0].url) && Search(jobs[0].url).None? then 0
    else 1 + FirstUnnamed(jobs[1..], ok)
  }

  /**
   * `get_data` writes exactly the files `Merra2_to_EPW.py`'s downloader would
   * write for the submissions before the first successfully requested URL
   * without a match, and stops with that URL; with no such URL it writes all
   * of them and completes.
   */
  lemma {:induction false} FetchAllOutcome(jobs: seq<Job>, ok: string -> bool)
    ensures var k := FirstUnnamed(jobs, ok);
      FetchAll(jobs, ok) == Fetched(SavedPaths(jobs[..k], ok), if k < |jobs| then Some(jobs[k].url) else None)
  {
    if jobs != [] {
      var k := FirstUnnamed(jobs, ok);
      if ok(jobs[0].url) && Search(jobs[0].url).None? {
        assert jobs[..0] == [];
      } else {
        FetchAllOutcome(jobs[1..], ok);
        assert jobs[..k][1..] == jobs[1..][..k - 1];
        assert jobs[..k][0] == jobs[0];
      }
    }
  }
}
