/** `getPrMetadata`: the fields of a pull request that the review needs,
    read from the API's pull-request document with optional chaining and
    `""` defaults. */
module PrMetadata {
  import opened JsValues

  /** The parts of the pull-request document that are read; every level may
      be missing or null (`None`). */
  datatype Repository = Repository(fullName: Option<string>)
  datatype Branch = Branch(name: Option<string>)
  datatype Commit = Commit(hash: Option<string>)
  datatype PrSide = PrSide(repository: Option<Repository>, branch: Option<Branch>, commit: Option<Commit>)
  datatype PrDetails = PrDetails(id: Option<int>, source: Option<PrSide>, destination: Option<PrSide>)

  /** The metadata record; it has no `diff` and no `jiraKey` field (the
      diff travels beside it, see Review). */
  datatype PrMetadata = PrMetadata(
    prId: Option<int>,
    repoSrc: string,
    repoDst: string,
    srcBranch: string,
    dstBranch: string,
    srcCommit: string)

  /** `side?.repository?.full_name` */
  function RepoName(side: Option<PrSide>): Option<string> {
    if side.Some? && side.value.repository.Some? then side.value.repository.value.fullName else None
  }

  /** `side?.branch?.name` */
  function BranchName(side: Option<PrSide>): Option<string> {
    if side.Some? && side.value.branch.Some? then side.value.branch.value.name else None
  }

  /** `side?.commit?.hash` */
  function CommitHash(side: Option<PrSide>): Option<string> {
    if side.Some? && side.value.commit.Some? then side.value.commit.value.hash else None
  }

  function Source(d: Option<PrDetails>): Option<PrSide> {
    if d.Some? then d.value.source else None
  }

  function Destination(d: Option<PrDetails>): Option<PrSide> {
    if d.Some? then d.value.destination else None
  }

  /** The metadata of a pull request; `details` is `None` when `fetchPR`
      gave null. Total: it never fails. */
  function GetPrMetadata(details: Option<PrDetails>): (m: PrMetadata)
    ensures details.None? ==> m == PrMetadata(None, "", "", "", "", "")
  {
    PrMetadata(
      if details.Some? then details.value.id else None,
      RepoName(Source(details)).GetOr(""),
      RepoName(Destination(details)).GetOr(""),
      BranchName(Source(details)).GetOr(""),
      BranchName(Destination(details)).GetOr(""),
      CommitHash(Source(details)).GetOr(""))
  }

  /** Each string field is the nested value when the whole path to it is
      present and non-null. */
  lemma PresentPathsAreCopied(id: Option<int>, src: PrSide, dst: PrSide,
                              repoSrc: string, repoDst: string, srcBranch: string, dstBranch: string, srcCommit: string)
    requires src == PrSide(Some(Repository(Some(repoSrc))), Some(Branch(Some(srcBranch))), Some(Commit(Some(srcCommit))))
    requires dst.repository == Some(Repository(Some(repoDst))) && dst.branch == Some(Branch(Some(dstBranch)))
    ensures GetPrMetadata(Some(PrDetails(id, Some(src), Some(dst))))
         == PrMetadata(id, repoSrc, repoDst, srcBranch, dstBranch, srcCommit)
  {
  }

  /** A field whose path breaks anywhere (the document, the side, the
      repository, branch or commit level, or the leaf itself missing or
      null) is "", whatever the other paths hold. */
  lemma BrokenPathsGiveEmpty(details: Option<PrDetails>)
    ensures var src := Source(details);
      (src.None? || src.value.repository.None? || src.value.repository.value.fullName.None?)
      ==> GetPrMetadata(details).repoSrc == ""
    ensures var dst := Destination(details);
      (dst.None? || dst.value.repository.None? || dst.value.repository.value.fullName.None?)
      ==> GetPrMetadata(details).repoDst == ""
    ensures var src := Source(details);
      (src.None? || src.value.branch.None? || src.value.branch.value.name.None?)
      ==> GetPrMetadata(details).srcBranch == ""
    ensures var dst := Destination(details);
      (dst.None? || dst.value.branch.None? || dst.value.branch.value.name.None?)
      ==> GetPrMetadata(details).dstBranch == ""
    ensures var src := Source(details);
      (src.None? || src.value.commit.None? || src.value.commit.value.hash.None?)
      ==> GetPrMetadata(details).srcCommit == ""
    ensures details.None? ==> Source(details).None? && Destination(details).None?
    ensures details.Some? ==> Source(details) == details.value.source && Destination(details) == details.value.destination
  {
  }

  /** Each field is copied when its own path is present and non-null,
      whatever the other paths hold; the id is `details.id`, and absent for
      a null document. */
  lemma PresentPathIsCopied(details: Option<PrDetails>)
    ensures var src := Source(details);
      src.Some? && src.value.repository.Some? && src.value.repository.value.fullName.Some?
      ==> GetPrMetadata(details).repoSrc == src.value.repository.value.fullName.value
    ensures var dst := Destination(details);
      dst.Some? && dst.value.repository.Some? && dst.value.repository.value.fullName.Some?
      ==> GetPrMetadata(details).repoDst == dst.value.repository.value.fullName.value
    ensures var src := Source(details);
      src.Some? && src.value.branch.Some? && src.value.branch.value.name.Some?
      ==> GetPrMetadata(details).srcBranch == src.value.branch.value.name.value
    ensures var dst := Destination(details);
      dst.Some? && dst.value.branch.Some? && dst.value.branch.value.name.Some?
      ==> GetPrMetadata(details).dstBranch == dst.value.branch.value.name.value
    ensures var src := Source(details);
      src.Some? && src.value.commit.Some? && src.value.commit.value.hash.Some?
      ==> GetPrMetadata(details).srcCommit == src.value.commit.value.hash.value
    ensures GetPrMetadata(details).prId == if details.Some? then details.value.id else None
  {
  }
}
