/**
 * The variants of the gateway's request type and their wire tags, with the
 * proof that no two variants share a tag.
 */
module ApiTags {
  import opened Wrappers

  /** The 53 variants of `ApiRequest`, in declaration order. */
  datatype Variant =
    | CreateLoginSecret
    | DeleteLoginSecret
    | UpdateUserPerimissions
    | UpdateUserPermissionsOnTarget
    | GetPeripheryVersion
    | GetSystemInformation
    | GetDockerContainers
    | GetDockerImages
    | GetDockerNetworks
    | GetServer
    | ListServers
    | CreateServer
    | DeleteServer
    | UpdateServer
    | RenameServer
    | GetAllSystemStats
    | GetBasicSystemStats
    | GetCpuUsage
    | GetDiskUsage
    | GetNetworkUsage
    | GetSystemProcesses
    | GetSystemComponents
    | PruneContainers
    | PruneImages
    | PruneNetworks
    | GetDeployment
    | ListDeployments
    | CreateDeployment
    | DeleteDeployment
    | UpdateDeployment
    | RenameDeployment
    | Deploy
    | StartContainer
    | StopContainer
    | RemoveContainer
    | GetBuild
    | ListBuilds
    | CreateBuild
    | DeleteBuild
    | UpdateBuild
    | RunBuild
    | GetBuilder
    | ListBuilders
    | CreateBuilder
    | DeleteBuilder
    | UpdateBuilder
    | GetRepo
    | ListRepos
    | CreateRepo
    | UpdateRepo
    | DeleteRepo
    | CloneRepo
    | PullRepo

  /** The wire tag of a variant: serde writes the variant's own name under `type`. */
  function Tag(v: Variant): string {
    match v
    case CreateLoginSecret => "CreateLoginSecret"
    case DeleteLoginSecret => "DeleteLoginSecret"
    case UpdateUserPerimissions => "UpdateUserPerimissions"
    case UpdateUserPermissionsOnTarget => "UpdateUserPermissionsOnTarget"
    case GetPeripheryVersion => "GetPeripheryVersion"
    case GetSystemInformation => "GetSystemInformation"
    case GetDockerContainers => "GetDockerContainers"
    case GetDockerImages => "GetDockerImages"
    case GetDockerNetworks => "GetDockerNetworks"
    case GetServer => "GetServer"
    case ListServers => "ListServers"
    case CreateServer => "CreateServer"
    case DeleteServer => "DeleteServer"
    case UpdateServer => "UpdateServer"
    case RenameServer => "RenameServer"
    case GetAllSystemStats => "GetAllSystemStats"
    case GetBasicSystemStats => "GetBasicSystemStats"
    case GetCpuUsage => "GetCpuUsage"
    case GetDiskUsage => "GetDiskUsage"
    case GetNetworkUsage => "GetNetworkUsage"
    case GetSystemProcesses => "GetSystemProcesses"
    case GetSystemComponents => "GetSystemComponents"
    case PruneContainers => "PruneContainers"
    case PruneImages => "PruneImages"
    case PruneNetworks => "PruneNetworks"
    case GetDeployment => "GetDeployment"
    case ListDeployments => "ListDeployments"
    case CreateDeployment => "CreateDeployment"
    case DeleteDeployment => "DeleteDeployment"
    case UpdateDeployment => "UpdateDeployment"
    case RenameDeployment => "RenameDeployment"
    case Deploy => "Deploy"
    case StartContainer => "StartContainer"
    case StopContainer => "StopContainer"
    case RemoveContainer => "RemoveContainer"
    case GetBuild => "GetBuild"
    case ListBuilds => "ListBuilds"
    case CreateBuild => "CreateBuild"
    case DeleteBuild => "DeleteBuild"
    case UpdateBuild => "UpdateBuild"
    case RunBuild => "RunBuild"
    case GetBuilder => "GetBuilder"
    case ListBuilders => "ListBuilders"
    case CreateBuilder => "CreateBuilder"
    case DeleteBuilder => "DeleteBuilder"
    case UpdateBuilder => "UpdateBuilder"
    case GetRepo => "GetRepo"
    case ListRepos => "ListRepos"
    case CreateRepo => "CreateRepo"
    case UpdateRepo => "UpdateRepo"
    case DeleteRepo => "DeleteRepo"
    case CloneRepo => "CloneRepo"
    case PullRepo => "PullRepo"
  }
  /**
   * A left inverse of `Tag`, used only to show that no two variants share a
   * tag. It reads a string's length and its first and fourth letters, which
   * already tell the tags apart; comparing whole string literals would cost
   * the solver far more for the same conclusion.
   */
  function TagInverse(t: string): Option<Variant> {
    if |t| < 4 then None else SignatureVariant(|t|, t[0], t[3])
  }

  /** The variant whose tag has the given length, first letter and fourth letter. */
  function SignatureVariant(length: nat, first: char, fourth: char): Option<Variant> {
    match (length, first, fourth)
    case (6, 'D', 'l') => Some(Deploy)
    case (7, 'G', 'R') => Some(GetRepo)
    case (8, 'G', 'B') => Some(GetBuild)
    case (8, 'P', 'l') => Some(PullRepo)
    case (8, 'R', 'B') => Some(RunBuild)
    case (9, 'C', 'n') => Some(CloneRepo)
    case (9, 'G', 'S') => Some(GetServer)
    case (9, 'L', 't') => Some(ListRepos)
    case (10, 'C', 'a') => Some(CreateRepo)
    case (10, 'D', 'e') => Some(DeleteRepo)
    case (10, 'G', 'B') => Some(GetBuilder)
    case (10, 'L', 't') => Some(ListBuilds)
    case (10, 'U', 'a') => Some(UpdateRepo)
    case (11, 'C', 'a') => Some(CreateBuild)
    case (11, 'D', 'e') => Some(DeleteBuild)
    case (11, 'G', 'C') => Some(GetCpuUsage)
    case (11, 'L', 't') => Some(ListServers)
    case (11, 'P', 'n') => Some(PruneImages)
    case (11, 'U', 'a') => Some(UpdateBuild)
    case (12, 'C', 'a') => Some(CreateServer)
    case (12, 'D', 'e') => Some(DeleteServer)
    case (12, 'G', 'D') => Some(GetDiskUsage)
    case (12, 'L', 't') => Some(ListBuilders)
    case (12, 'R', 'a') => Some(RenameServer)
    case (12, 'U', 'a') => Some(UpdateServer)
    case (13, 'C', 'a') => Some(CreateBuilder)
    case (13, 'D', 'e') => Some(DeleteBuilder)
    case (13, 'G', 'D') => Some(GetDeployment)
    case (13, 'P', 'n') => Some(PruneNetworks)
    case (13, 'S', 'p') => Some(StopContainer)
    case (13, 'U', 'a') => Some(UpdateBuilder)
    case (14, 'S', 'r') => Some(StartContainer)
    case (15, 'G', 'D') => Some(GetDockerImages)
    case (15, 'G', 'N') => Some(GetNetworkUsage)
    case (15, 'L', 't') => Some(ListDeployments)
    case (15, 'P', 'n') => Some(PruneContainers)
    case (15, 'R', 'o') => Some(RemoveContainer)
    case (16, 'C', 'a') => Some(CreateDeployment)
    case (16, 'D', 'e') => Some(DeleteDeployment)
    case (16, 'R', 'a') => Some(RenameDeployment)
    case (16, 'U', 'a') => Some(UpdateDeployment)
    case (17, 'C', 'a') => Some(CreateLoginSecret)
    case (17, 'D', 'e') => Some(DeleteLoginSecret)
    case (17, 'G', 'A') => Some(GetAllSystemStats)
    case (17, 'G', 'D') => Some(GetDockerNetworks)
    case (18, 'G', 'S') => Some(GetSystemProcesses)
    case (19, 'G', 'B') => Some(GetBasicSystemStats)
    case (19, 'G', 'D') => Some(GetDockerContainers)
    case (19, 'G', 'P') => Some(GetPeripheryVersion)
    case (19, 'G', 'S') => Some(GetSystemComponents)
    case (20, 'G', 'S') => Some(GetSystemInformation)
    case (22, 'U', 'a') => Some(UpdateUserPerimissions)
    case (29, 'U', 'a') => Some(UpdateUserPermissionsOnTarget)
    case _ => None
  }

  /*
   * `TagInverseGroup1` to `TagInverseGroup18` prove that `TagInverse`
   * undoes `Tag` for three variants each, in declaration order. The split only keeps
   * each proof obligation small; `TagInverseCorrect` joins the slices.
   */

  lemma TagInverseGroup1(v: Variant)
    requires v.CreateLoginSecret? || v.DeleteLoginSecret? || v.UpdateUserPerimissions?
    ensures TagInverse(Tag(v)) == Some(v)
  {
  }

  lemma TagInverseGroup2(v: Variant)
    requires v.UpdateUserPermissionsOnTarget? || v.GetPeripheryVersion? || v.GetSystemInformation?
    ensures TagInverse(Tag(v)) == Some(v)
  {
  }

  lemma TagInverseGroup3(v: Variant)
    requires v.GetDockerContainers? || v.GetDockerImages? || v.GetDockerNetworks?
    ensures TagInverse(Tag(v)) == Some(v)
  {
  }

  lemma TagInverseGroup4(v: Variant)
    requires v.GetServer? || v.ListServers? || v.CreateServer?
    ensures TagInverse(Tag(v)) == Some(v)
  {
  }

  lemma TagInverseGroup5(v: Variant)
    requires v.DeleteServer? || v.UpdateServer? || v.RenameServer?
    ensures TagInverse(Tag(v)) == Some(v)
  {
  }

  lemma TagInverseGroup6(v: Variant)
    requires v.GetAllSystemStats? || v.GetBasicSystemStats? || v.GetCpuUsage?
    ensures TagInverse(Tag(v)) == Some(v)
  {
  }

  lemma TagInverseGroup7(v: Variant)
    requires v.GetDiskUsage? || v.GetNetworkUsage? || v.GetSystemProcesses?
    ensures TagInverse(Tag(v)) == Some(v)
  {
  }

  lemma TagInverseGroup8(v: Variant)
    requires v.GetSystemComponents? || v.PruneContainers? || v.PruneImages?
    ensures TagInverse(Tag(v)) == Some(v)
  {
  }

  lemma TagInverseGroup9(v: Variant)
    requires v.PruneNetworks? || v.GetDeployment? || v.ListDeployments?
    ensures TagInverse(Tag(v)) == Some(v)
  {
  }

  lemma TagInverseGroup10(v: Variant)
    requires v.CreateDeployment? || v.DeleteDeployment? || v.UpdateDeployment?
    ensures TagInverse(Tag(v)) == Some(v)
  {
  }

  lemma TagInverseGroup11(v: Variant)
    requires v.RenameDeployment? || v.Deploy? || v.StartContainer?
    ensures TagInverse(Tag(v)) == Some(v)
  {
  }

  lemma TagInverseGroup12(v: Variant)
    requires v.StopContainer? || v.RemoveContainer? || v.GetBuild?
    ensures TagInverse(Tag(v)) == Some(v)
  {
  }

  lemma TagInverseGroup13(v: Variant)
    requires v.ListBuilds? || v.CreateBuild? || v.DeleteBuild?
    ensures TagInverse(Tag(v)) == Some(v)
  {
  }

  lemma TagInverseGroup14(v: Variant)
    requires v.UpdateBuild? || v.RunBuild? || v.GetBuilder?
    ensures TagInverse(Tag(v)) == Some(v)
  {
  }

  lemma TagInverseGroup15(v: Variant)
    requires v.ListBuilders? || v.CreateBuilder? || v.DeleteBuilder?
    ensures TagInverse(Tag(v)) == Some(v)
  {
  }

  lemma TagInverseGroup16(v: Variant)
    requires v.UpdateBuilder? || v.GetRepo? || v.ListRepos?
    ensures TagInverse(Tag(v)) == Some(v)
  {
  }

  lemma TagInverseGroup17(v: Variant)
    requires v.CreateRepo? || v.UpdateRepo? || v.DeleteRepo?
    ensures TagInverse(Tag(v)) == Some(v)
  {
  }

  lemma TagInverseGroup18(v: Variant)
    requires v.CloneRepo? || v.PullRepo?
    ensures TagInverse(Tag(v)) == Some(v)
  {
  }

  lemma TagInverseCorrect(v: Variant)
    ensures TagInverse(Tag(v)) == Some(v)
  {
    if v.CreateLoginSecret? || v.DeleteLoginSecret? || v.UpdateUserPerimissions? {
      TagInverseGroup1(v);
    } else if v.UpdateUserPermissionsOnTarget? || v.GetPeripheryVersion? || v.GetSystemInformation? {
      TagInverseGroup2(v);
    } else if v.GetDockerContainers? || v.GetDockerImages? || v.GetDockerNetworks? {
      TagInverseGroup3(v);
    } else if v.GetServer? || v.ListServers? || v.CreateServer? {
      TagInverseGroup4(v);
    } else if v.DeleteServer? || v.UpdateServer? || v.RenameServer? {
      TagInverseGroup5(v);
    } else if v.GetAllSystemStats? || v.GetBasicSystemStats? || v.GetCpuUsage? {
      TagInverseGroup6(v);
    } else if v.GetDiskUsage? || v.GetNetworkUsage? || v.GetSystemProcesses? {
      TagInverseGroup7(v);
    } else if v.GetSystemComponents? || v.PruneContainers? || v.PruneImages? {
      TagInverseGroup8(v);
    } else if v.PruneNetworks? || v.GetDeployment? || v.ListDeployments? {
      TagInverseGroup9(v);
    } else if v.CreateDeployment? || v.DeleteDeployment? || v.UpdateDeployment? {
      TagInverseGroup10(v);
    } else if v.RenameDeployment? || v.Deploy? || v.StartContainer? {
      TagInverseGroup11(v);
    } else if v.StopContainer? || v.RemoveContainer? || v.GetBuild? {
      TagInverseGroup12(v);
    } else if v.ListBuilds? || v.CreateBuild? || v.DeleteBuild? {
      TagInverseGroup13(v);
    } else if v.UpdateBuild? || v.RunBuild? || v.GetBuilder? {
      TagInverseGroup14(v);
    } else if v.ListBuilders? || v.CreateBuilder? || v.DeleteBuilder? {
      TagInverseGroup15(v);
    } else if v.UpdateBuilder? || v.GetRepo? || v.ListRepos? {
      TagInverseGroup16(v);
    } else if v.CreateRepo? || v.UpdateRepo? || v.DeleteRepo? {
      TagInverseGroup17(v);
    } else {
      TagInverseGroup18(v);
    }
  }


  /** No two variants share a wire tag, so the tag alone determines the variant. */
  lemma TagInjective(a: Variant, b: Variant)
    ensures Tag(a) == Tag(b) ==> a == b
  {
    TagInverseCorrect(a);
    TagInverseCorrect(b);
  }

  lemma TagsAreDistinct()
    ensures forall a, b :: Tag(a) == Tag(b) ==> a == b
  {
    forall a, b ensures Tag(a) == Tag(b) ==> a == b {
      TagInjective(a, b);
    }
  }
}
