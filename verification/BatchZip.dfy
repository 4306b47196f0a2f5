/** The batch download: one ZIP entry per exportable job, with collision-free names. */
module BatchZip {
  import opened Common
  import opened Text

  /** `stem` is the filename without directory and extension. */
  datatype Job = Job(id: string, completed: bool, fromUrl: bool, stem: string)

  function Underscored(s: string): string {
    if s == [] then [] else [if s[0] == '\\' || s[0] == '/' then '_' else s[0]] + Underscored(s[1..])
  }

  function LStripped(s: string): string {
    if s != [] && (s[0] == '.' || s[0] == ' ') then LStripped(s[1..]) else s
  }

  function EntryBase(job: Job): string {
    var base := LStripped(Underscored(job.stem));
    if job.fromUrl || base == [] then job.id else base
  }

  predicate IsSeparator(c: char) { c == '/' || c == '\\' }

  predicate IsLeading(c: char) { c == '.' || c == ' ' }

  lemma {:induction false} UnderscoredExactly(s: string)
    ensures |Underscored(s)| == |s|
    ensures forall i :: 0 <= i < |s| ==> Underscored(s)[i] == if IsSeparator(s[i]) then '_' else s[i]
  {
    if s != [] { UnderscoredExactly(s[1..]); }
  }

  lemma {:induction false} StrippedExactly(s: string) returns (k: nat)
    ensures k <= |s| && LStripped(s) == s[k..]
    ensures (forall i :: 0 <= i < k ==> IsLeading(s[i])) && (k < |s| ==> !IsLeading(s[k]))
  {
    k := 0;
    if s != [] && IsLeading(s[0]) {
      k := StrippedExactly(s[1..]);
      assert s[1..][k..] == s[k + 1..];
      k := k + 1;
    }
  }

  /** The base of an entry: the job id for a link or when nothing is left; otherwise the
      stem without its leading dots and spaces, each separator replaced. */
  lemma EntryBaseExactly(job: Job) returns (k: nat)
    ensures k <= |job.stem|
    ensures (forall i :: 0 <= i < k ==> IsLeading(job.stem[i])) && (k < |job.stem| ==> !IsLeading(job.stem[k]))
    ensures job.fromUrl || k == |job.stem| ==> EntryBase(job) == job.id
    ensures !job.fromUrl && k < |job.stem| ==>
              && |EntryBase(job)| == |job.stem| - k
              && forall i :: 0 <= i < |job.stem| - k ==>
                   EntryBase(job)[i] == if IsSeparator(job.stem[k + i]) then '_' else job.stem[k + i]
  {
    UnderscoredExactly(job.stem);
    k := StrippedExactly(Underscored(job.stem));
  }

  /** An upload never leads out of the archive: its base is the job id, or holds no
      separator and starts with no dot or space. */
  lemma UploadBaseIsFlat(job: Job)
    requires !job.fromUrl
    ensures EntryBase(job) == job.id
            || (Free(EntryBase(job), '/') && Free(EntryBase(job), '\\') && EntryBase(job) != []
                && !IsLeading(EntryBase(job)[0]))
  {
    var k := EntryBaseExactly(job);
  }

  /* ---------------- candidate names ---------------- */

  /** The k-th name tried. */
  function Candidate(base: string, ext: string, k: nat): string {
    if k == 0 then base + ext else base + " (" + Decimal(k) + ")" + ext
  }

  lemma SecondCandidate()
    ensures Candidate("talk", ".srt", 0) == "talk.srt" && Candidate("talk", ".srt", 1) == "talk (1).srt"
  {
    assert Decimal(1) == "1";
  }

  /** The first k names tried. */
  function Tried(base: string, ext: string, k: nat): set<string> {
    if k == 0 then {} else Tried(base, ext, k - 1) + {Candidate(base, ext, k - 1)}
  }

  lemma CandidateInjective(base: string, ext: string, j: nat, k: nat)
    requires j < k
    ensures Candidate(base, ext, j) != Candidate(base, ext, k)
  {
    var a, b := Candidate(base, ext, j), Candidate(base, ext, k);
    if a == b {
      if j > 0 {
        var n := |base| + 2;
        assert |a| == n + |Decimal(j)| + 1 + |ext| && |b| == n + |Decimal(k)| + 1 + |ext|;
        assert a[n..n + |Decimal(j)|] == Decimal(j);
        assert b[n..n + |Decimal(k)|] == Decimal(k);
        DecimalInjective(j, k);
      }
    }
  }

  lemma {:induction false} TriedAreDistinct(base: string, ext: string, k: nat, l: nat)
    requires k <= l
    ensures |Tried(base, ext, k)| == k
    ensures k < l ==> Candidate(base, ext, l) !in Tried(base, ext, k)
    ensures Candidate(base, ext, k) !in Tried(base, ext, k)
  {
    if k > 0 {
      TriedAreDistinct(base, ext, k - 1, l);
      TriedAreDistinct(base, ext, k - 1, k);
      CandidateInjective(base, ext, k - 1, k);
      if k < l { CandidateInjective(base, ext, k - 1, l); }
    }
  }

  lemma SubsetSize(a: set<string>, b: set<string>)
    requires a <= b
    ensures |a| <= |b|
  {
    if a != {} {
      var x :| x in a;
      SubsetSize(a - {x}, b - {x});
    }
  }

  /** Pigeonhole: names all taken are no more than the names in use. */
  lemma TriedFit(base: string, ext: string, used: set<string>, k: nat)
    requires Tried(base, ext, k) <= used
    ensures k <= |used|
  {
    TriedAreDistinct(base, ext, k, k);
    SubsetSize(Tried(base, ext, k), used);
  }

  predicate FirstFree(name: string, base: string, ext: string, used: set<string>, k: nat) {
    && name == Candidate(base, ext, k) && name !in used
    && Tried(base, ext, k) <= used
  }

  /** The collision loop: at most |used| + 1 names are looked at, and the first free
      one is taken. */
  method FreeName(base: string, ext: string, used: set<string>) returns (name: string, counter: nat)
    ensures FirstFree(name, base, ext, used, counter)
    ensures counter <= |used|
  {
    name := base + ext;
    counter := 0;
    while name in used
      invariant name == Candidate(base, ext, counter)
      invariant Tried(base, ext, counter) <= used
      decreases |used| - counter
    {
      TriedFit(base, ext, used, counter + 1);
      counter := counter + 1;
      name := base + " (" + Decimal(counter) + ")" + ext;
    }
    TriedFit(base, ext, used, counter);
  }

  /** Only one name and one count can be first. */
  lemma FirstFreeIsUnique(m: string, n: string, base: string, ext: string, used: set<string>, j: nat, k: nat)
    requires FirstFree(m, base, ext, used, j) && FirstFree(n, base, ext, used, k)
    ensures m == n && j == k
  {
    if j < k { TriedContains(base, ext, j, k); }
    if k < j { TriedContains(base, ext, k, j); }
  }

  lemma {:induction false} TriedContains(base: string, ext: string, j: nat, k: nat)
    requires j < k
    ensures Candidate(base, ext, j) in Tried(base, ext, k)
  {
    if j < k - 1 { TriedContains(base, ext, j, k - 1); }
  }

  /* ---------------- the archive ---------------- */

  datatype Entry<T> = Entry(name: string, content: T)

  predicate Loadable<T>(job: Job, results: map<string, T>) { job.completed && job.id in results }

  /** The jobs of the batch that get an entry. */
  function Exportable<T>(jobs: seq<Job>, results: map<string, T>): seq<Job> {
    if jobs == [] then []
    else
      var front, last := Exportable(jobs[..|jobs| - 1], results), jobs[|jobs| - 1];
      if Loadable(last, results) then front + [last] else front
  }

  /** Exactly those that are completed and loadable, each as often as it is listed. */
  lemma {:induction false} ExportableIsLoadable<T>(jobs: seq<Job>, results: map<string, T>)
    ensures forall job :: multiset(Exportable(jobs, results))[job]
                       == if job.completed && job.id in results then multiset(jobs)[job] else 0
  {
    if jobs != [] {
      ExportableIsLoadable(jobs[..|jobs| - 1], results);
      assert jobs == jobs[..|jobs| - 1] + [jobs[|jobs| - 1]];
    }
  }

  function Names<T>(entries: seq<Entry<T>>): set<string> {
    if entries == [] then {} else Names(entries[..|entries| - 1]) + {entries[|entries| - 1].name}
  }

  /** Entry i is the i-th exportable job's result under the first name that is still
      free after the entries before it. */
  ghost predicate Archive<T>(entries: seq<Entry<T>>, jobs: seq<Job>, results: map<string, T>, ext: string) {
    EntriesOf(entries, Exportable(jobs, results), results, ext)
  }

  ghost predicate EntriesOf<T>(entries: seq<Entry<T>>, exported: seq<Job>, results: map<string, T>, ext: string) {
    && |entries| == |exported|
    && forall i :: 0 <= i < |entries| ==> EntryOf(entries, i, exported[i], results, ext)
  }

  ghost predicate EntryOf<T>(entries: seq<Entry<T>>, i: nat, job: Job, results: map<string, T>, ext: string)
    requires i < |entries|
  {
    && job.id in results && entries[i].content == results[job.id]
    && exists k: nat :: FirstFree(entries[i].name, EntryBase(job), ext, Names(entries[..i]), k) && k <= i
  }

  /** An exporter that raises loses the whole archive. */
  datatype Download<T> = Raised(at: nat) | Nothing | Zip(entries: seq<Entry<T>>)

  predicate Raises<T>(job: Job, results: map<string, T>, raises: set<string>) {
    Loadable(job, results) && job.id in raises
  }

  /** `raises` are the jobs whose result the exporter cannot write. */
  method CreateBatchZip<T>(jobs: seq<Job>, results: map<string, T>, raises: set<string>, ext: string)
    returns (zip: Download<T>)
    ensures zip.Raised? ==> zip.at < |jobs| && Raises(jobs[zip.at], results, raises)
    ensures !zip.Raised? ==> forall j :: 0 <= j < |jobs| ==> !Raises(jobs[j], results, raises)
    ensures zip.Nothing? ==> forall j :: 0 <= j < |jobs| ==> !Loadable(jobs[j], results)
    ensures zip.Zip? ==> zip.entries != [] && Archive(zip.entries, jobs, results, ext)
  {
    var used: set<string> := {};
    var entries: seq<Entry<T>> := [];
    NothingYet(jobs, results, ext);
    for i := 0 to |jobs|
      invariant Upto(entries, used, jobs, i, results, ext)
      invariant forall j :: 0 <= j < i ==> !Raises(jobs[j], results, raises)
    {
      if Loadable(jobs[i], results) {
        if jobs[i].id in raises {
          return Raised(i);
        }
        entries, used := AddEntry(entries, used, jobs, i, results, ext);
      } else {
        SkipEntry(entries, used, jobs, i, results, ext);
      }
    }
    UptoTheEnd(entries, used, jobs, results, ext);
    if used == {} {
      return Nothing;
    }
    return Zip(entries);
  }

  /** The archive and the names in use after the first i jobs. */
  ghost predicate Upto<T>(entries: seq<Entry<T>>, used: set<string>, jobs: seq<Job>, i: nat, results: map<string, T>,
                          ext: string)
    requires i <= |jobs|
  {
    used == Names(entries) && |used| <= |entries| && Archive(entries, jobs[..i], results, ext)
  }

  lemma {:induction false} NothingYet<T>(jobs: seq<Job>, results: map<string, T>, ext: string)
    ensures Upto([], {}, jobs, 0, results, ext)
  {}

  /** The entry of job i, under the first free name. */
  method AddEntry<T>(entries: seq<Entry<T>>, used: set<string>, jobs: seq<Job>, i: nat, results: map<string, T>,
                     ext: string)
    returns (more: seq<Entry<T>>, taken: set<string>)
    requires i < |jobs| && Loadable(jobs[i], results) && Upto(entries, used, jobs, i, results, ext)
    ensures Upto(more, taken, jobs, i + 1, results, ext)
  {
    var name, counter := FreeName(EntryBase(jobs[i]), ext, used);
    taken := used + {name};
    var entry := Entry(name, results[jobs[i].id]);
    more := entries + [entry];
    NamesSnoc(entries, entry);
    assert jobs[..i + 1][..i] == jobs[..i];
    ArchiveSnoc(entries, entry, jobs[..i + 1], results, ext, counter);
  }

  lemma {:induction false} SkipEntry<T>(entries: seq<Entry<T>>, used: set<string>, jobs: seq<Job>, i: nat,
                                        results: map<string, T>, ext: string)
    requires i < |jobs| && !Loadable(jobs[i], results) && Upto(entries, used, jobs, i, results, ext)
    ensures Upto(entries, used, jobs, i + 1, results, ext)
  {
    assert jobs[..i + 1][..i] == jobs[..i];
  }

  lemma {:induction false} UptoTheEnd<T>(entries: seq<Entry<T>>, used: set<string>, jobs: seq<Job>,
                                         results: map<string, T>, ext: string)
    requires Upto(entries, used, jobs, |jobs|, results, ext)
    ensures Archive(entries, jobs, results, ext)
    ensures used == {} <==> entries == []
    ensures entries == [] ==> forall j :: 0 <= j < |jobs| ==> !Loadable(jobs[j], results)
  {
    assert jobs[..|jobs|] == jobs;
    NoNames(entries);
    NothingToExport(jobs, results);
  }

  lemma {:induction false} NothingToExport<T>(jobs: seq<Job>, results: map<string, T>)
    ensures Exportable(jobs, results) == [] <==> forall j :: 0 <= j < |jobs| ==> !Loadable(jobs[j], results)
  {
    if jobs != [] {
      NothingToExport(jobs[..|jobs| - 1], results);
      var last := |jobs| - 1;
      assert forall j :: 0 <= j < last ==> jobs[..last][j] == jobs[j];
    }
  }

  lemma NamesSnoc<T>(entries: seq<Entry<T>>, e: Entry<T>)
    ensures Names(entries + [e]) == Names(entries) + {e.name}
  {
    assert (entries + [e])[..|entries|] == entries;
  }

  lemma NoNames<T>(entries: seq<Entry<T>>)
    ensures Names(entries) == {} <==> entries == []
  {}

  lemma {:induction false} ArchiveSnoc<T>(entries: seq<Entry<T>>, e: Entry<T>, jobs: seq<Job>,
                                          results: map<string, T>, ext: string, k: nat)
    requires jobs != [] && Archive(entries, jobs[..|jobs| - 1], results, ext)
    requires var job := jobs[|jobs| - 1];
             && job.completed && job.id in results && e.content == results[job.id]
             && FirstFree(e.name, EntryBase(job), ext, Names(entries), k) && k <= |entries|
    ensures Archive(entries + [e], jobs, results, ext)
  {
    var all, job := entries + [e], jobs[|jobs| - 1];
    var exported := Exportable(jobs, results);
    assert exported == Exportable(jobs[..|jobs| - 1], results) + [job];
    forall i | 0 <= i < |all| ensures EntryOf(all, i, exported[i], results, ext) {
      assert all[..i] == entries[..i];
      if i == |entries| {
        assert entries[..i] == entries;
      } else {
        assert EntryOf(entries, i, exported[i], results, ext);
      }
    }
  }

  lemma {:induction false} NameIsListed<T>(entries: seq<Entry<T>>, i: nat)
    requires i < |entries|
    ensures entries[i].name in Names(entries)
  {
    if i < |entries| - 1 {
      NameIsListed(entries[..|entries| - 1], i);
    }
  }

  /** No two entries of an archive share a name. */
  lemma NamesAreDistinct<T>(entries: seq<Entry<T>>, jobs: seq<Job>, results: map<string, T>, ext: string,
                            i: nat, j: nat)
    requires Archive(entries, jobs, results, ext) && i < j < |entries|
    ensures entries[i].name != entries[j].name
  {
    NameIsListed(entries[..j], i);
    assert EntryOf(entries, j, Exportable(jobs, results)[j], results, ext);
  }

  /** Jobs, results and format leave no choice in the archive. */
  lemma {:induction false} ArchiveIsUnique<T>(a: seq<Entry<T>>, b: seq<Entry<T>>, jobs: seq<Job>,
                                              results: map<string, T>, ext: string)
    requires Archive(a, jobs, results, ext) && Archive(b, jobs, results, ext)
    ensures a == b
  {
    PrefixIsUnique(a, b, Exportable(jobs, results), results, ext, |a|);
    assert a[..|a|] == a && b[..|b|] == b;
  }

  lemma {:induction false} PrefixIsUnique<T>(a: seq<Entry<T>>, b: seq<Entry<T>>, exported: seq<Job>,
                                             results: map<string, T>, ext: string, n: nat)
    requires EntriesOf(a, exported, results, ext) && EntriesOf(b, exported, results, ext) && n <= |a|
    ensures a[..n] == b[..n]
  {
    if n > 0 {
      PrefixIsUnique(a, b, exported, results, ext, n - 1);
      var i := n - 1;
      assert EntryOf(a, i, exported[i], results, ext) && EntryOf(b, i, exported[i], results, ext);
      EntryIsUnique(a, b, i, exported[i], results, ext);
    }
  }

  lemma {:induction false} EntryIsUnique<T>(a: seq<Entry<T>>, b: seq<Entry<T>>, i: nat, job: Job,
                                            results: map<string, T>, ext: string)
    requires i < |a| && i < |b| && a[..i] == b[..i]
    requires EntryOf(a, i, job, results, ext) && EntryOf(b, i, job, results, ext)
    ensures a[..i + 1] == b[..i + 1]
  {
    var base, used := EntryBase(job), Names(a[..i]);
    var j: nat :| FirstFree(a[i].name, base, ext, used, j);
    var k: nat :| FirstFree(b[i].name, base, ext, used, k);
    FirstFreeIsUnique(a[i].name, b[i].name, base, ext, used, j, k);
    assert a[i] == b[i];
    assert a[..i + 1] == a[..i] + [a[i]] && b[..i + 1] == b[..i] + [b[i]];
  }
}
