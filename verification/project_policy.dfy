/**
 * The project policy panel: the policy read from a project's metadata, its
 * validity, and the save / reset cycle against the policy last read from
 * the server.
 */
module ProjectPolicyConfig {
  import opened Wrappers

  /** ProjectPolicy. Policies are compared and copied by value (compareValue and clone). */
  datatype ProjectPolicy = ProjectPolicy(
    public: bool,
    contentTrust: bool,
    preventVulImg: bool,
    preventVulImgSeverity: string,
    scanImgOnPush: bool)

  /** A new ProjectPolicy: every flag off, severity "low". */
  const DefaultPolicy: ProjectPolicy := ProjectPolicy(false, false, false, "low", false)

  /** A project's metadata strings; an absent key is None. */
  datatype Metadata = Metadata(
    public: Option<string>,
    enableContentTrust: Option<string>,
    preventVul: Option<string>,
    severity: Option<string>,
    autoScan: Option<string>)

  const SeverityOptions: seq<string> := ["high", "medium", "low", "negligible"]

  /** A metadata value is set when present and not empty. */
  predicate Set(v: Option<string>) {
    v.Some? && v.value != ""
  }

  /**
   * initByProject: each flag is on exactly when its metadata string is
   * "true"; the severity is taken from the metadata only when it is set, and
   * otherwise stays what the policy had.
   */
  function InitByProject(p: ProjectPolicy, md: Metadata): (q: ProjectPolicy)
    ensures q.public <==> md.public == Some("true")
    ensures q.contentTrust <==> md.enableContentTrust == Some("true")
    ensures q.preventVulImg <==> md.preventVul == Some("true")
    ensures q.scanImgOnPush <==> md.autoScan == Some("true")
    ensures Set(md.severity) ==> q.preventVulImgSeverity == md.severity.value
    ensures !Set(md.severity) ==> q.preventVulImgSeverity == p.preventVulImgSeverity
  {
    ProjectPolicy(
      md.public == Some("true"),
      md.enableContentTrust == Some("true"),
      md.preventVul == Some("true"),
      if Set(md.severity) then md.severity.value else p.preventVulImgSeverity,
      md.autoScan == Some("true"))
  }

  /** Reading the same metadata twice changes nothing more. */
  lemma InitIdempotent(p: ProjectPolicy, md: Metadata)
    ensures InitByProject(InitByProject(p, md), md) == InitByProject(p, md)
  {
  }

  /**
   * Two policies read from the same metadata agree exactly when the metadata
   * sets a severity or they already had the same one: without a severity in
   * the metadata, a difference in severity survives a refresh.
   */
  lemma InitAgrees(p: ProjectPolicy, q: ProjectPolicy, md: Metadata)
    ensures InitByProject(p, md) == InitByProject(q, md) <==>
      Set(md.severity) || p.preventVulImgSeverity == q.preventVulImgSeverity
  {
    if InitByProject(p, md) == InitByProject(q, md) {
      assert InitByProject(p, md).preventVulImgSeverity == InitByProject(q, md).preventVulImgSeverity;
    }
  }

  /** isValid: vulnerable images are not prevented, or the threshold is one of the four offered severities. */
  predicate IsValid(p: ProjectPolicy)
    ensures !p.preventVulImg ==> IsValid(p)
    ensures p.preventVulImg ==> (IsValid(p) <==> p.preventVulImgSeverity in {"high", "medium", "low", "negligible"})
  {
    !p.preventVulImg || p.preventVulImgSeverity in SeverityOptions
  }

  /**
   * The default policy is valid, and a policy whose threshold is one of the
   * offered severities stays valid when read from metadata whose severity
   * is unset or offered.
   */
  lemma InitValid(p: ProjectPolicy, md: Metadata)
    requires p.preventVulImgSeverity in SeverityOptions
    requires Set(md.severity) ==> md.severity.value in SeverityOptions
    ensures IsValid(DefaultPolicy)
    ensures IsValid(InitByProject(p, md))
  {
  }

  /** A threshold outside the offered four makes a preventing policy invalid. */
  lemma UnknownSeverityInvalid(p: ProjectPolicy)
    requires p.preventVulImg && p.preventVulImgSeverity !in SeverityOptions
    ensures !IsValid(p)
  {
  }

  datatype ConfirmationTarget = ConfigTarget | OtherTarget(name: string)
  datatype ConfirmationState = NotAnswered | Confirmed | Cancelled
  datatype ConfirmationAck = ConfirmationAck(source: ConfirmationTarget, state: ConfirmationState)

  /** ProjectPolicyConfigComponent: the policy as read from the server, the policy being edited, and the save flag. */
  class ProjectPolicyConfigComponent {
    var orgProjectPolicy: ProjectPolicy
    var projectPolicy: ProjectPolicy
    var onGoing: bool

    constructor()
      ensures orgProjectPolicy == DefaultPolicy && projectPolicy == DefaultPolicy && !onGoing
    {
      orgProjectPolicy := DefaultPolicy;
      projectPolicy := DefaultPolicy;
      onGoing := false;
    }

    /** hasChanges: the edited policy differs from the one read. */
    predicate HasChanges()
      reads this
      ensures HasChanges() <==>
        orgProjectPolicy.public != projectPolicy.public || orgProjectPolicy.contentTrust != projectPolicy.contentTrust
        || orgProjectPolicy.preventVulImg != projectPolicy.preventVulImg
        || orgProjectPolicy.preventVulImgSeverity != projectPolicy.preventVulImgSeverity
        || orgProjectPolicy.scanImgOnPush != projectPolicy.scanImgOnPush
    {
      orgProjectPolicy != projectPolicy
    }

    /** retrieve: both policies are re-read from the fetched project; a failed fetch changes nothing. */
    method Retrieve(project: Result<Metadata, ()>)
      modifies this
      ensures project.Ok? ==>
        orgProjectPolicy == InitByProject(old(orgProjectPolicy), project.value)
        && projectPolicy == InitByProject(old(projectPolicy), project.value)
      ensures project.Err? ==> orgProjectPolicy == old(orgProjectPolicy) && projectPolicy == old(projectPolicy)
      ensures onGoing == old(onGoing)
    {
      if project.Ok? {
        orgProjectPolicy := InitByProject(orgProjectPolicy, project.value);
        projectPolicy := InitByProject(projectPolicy, project.value);
      }
    }

    /** save: returns whether the update is sent; without changes nothing happens. */
    method Save() returns (sent: bool)
      modifies this
      ensures sent <==> old(HasChanges())
      ensures onGoing == (sent || old(onGoing))
      ensures orgProjectPolicy == old(orgProjectPolicy) && projectPolicy == old(projectPolicy)
    {
      if !HasChanges() {
        return false;
      }
      onGoing := true;
      return true;
    }

    /** The update answered: the save is over, and on success the policies are refreshed from the server. */
    method SaveAnswered(ok: bool, refreshed: Result<Metadata, ()>)
      modifies this
      ensures !onGoing
      ensures ok && refreshed.Ok? ==>
        orgProjectPolicy == InitByProject(old(orgProjectPolicy), refreshed.value)
        && projectPolicy == InitByProject(old(projectPolicy), refreshed.value)
      ensures !(ok && refreshed.Ok?) ==> orgProjectPolicy == old(orgProjectPolicy) && projectPolicy == old(projectPolicy)
    {
      onGoing := false;
      if ok {
        Retrieve(refreshed);
      }
    }

    /** reset: the edited policy becomes a copy of the one read, so nothing is left to save. */
    method Reset()
      modifies this
      ensures projectPolicy == orgProjectPolicy == old(orgProjectPolicy)
      ensures !HasChanges()
      ensures onGoing == old(onGoing)
    {
      projectPolicy := orgProjectPolicy;
    }

    /** confirmCancel: only a confirmed answer to the configuration dialog resets the policy. */
    method ConfirmCancel(ack: Option<ConfirmationAck>)
      modifies this
      ensures ack == Some(ConfirmationAck(ConfigTarget, Confirmed)) ==> projectPolicy == old(orgProjectPolicy)
      ensures ack != Some(ConfirmationAck(ConfigTarget, Confirmed)) ==> projectPolicy == old(projectPolicy)
      ensures orgProjectPolicy == old(orgProjectPolicy) && onGoing == old(onGoing)
    {
      if ack.Some? && ack.value.source == ConfigTarget && ack.value.state == Confirmed {
        Reset();
      }
    }
  }
}
