/** The wire types of the Machines API, as values, and the boot-failure sentinel. */
module Flaps {

  datatype Option<+T> = None | Some(value: T)

  datatype MachineState =
    | Created | Started | Stopped | Suspended | Failed
    | Creating | Starting | Stopping | Restarting | Suspending | Updating | Replacing | Destroying
    | Destroyed | Replaced

  /** The wire text of a state; a wait request names states by this text. */
  function StateText(s: MachineState): string {
    match s
    case Created => "created"
    case Started => "started"
    case Stopped => "stopped"
    case Suspended => "suspended"
    case Failed => "failed"
    case Creating => "creating"
    case Starting => "starting"
    case Stopping => "stopping"
    case Restarting => "restarting"
    case Suspending => "suspending"
    case Updating => "updating"
    case Replacing => "replacing"
    case Destroying => "destroying"
    case Destroyed => "destroyed"
    case Replaced => "replaced"
  }

  predicate Resting(s: MachineState) {
    s.Created? || s.Started? || s.Stopped? || s.Suspended? || s.Failed?
  }

  predicate Transient(s: MachineState) {
    s.Creating? || s.Starting? || s.Stopping? || s.Restarting? || s.Suspending? || s.Replacing? || s.Destroying?
  }

  // ---- configuration values: a nil slice, map or pointer is None ----

  datatype Port = Port(port: int, handlers: Option<seq<string>>)
  datatype Service = Service(protocol: string, internalPort: int, ports: Option<seq<Port>>)
  datatype Guest = Guest(cpuKind: string, cpus: int, memoryMB: int)
  datatype RestartPolicy = RestartPolicy(policy: string, maxRetries: int)
  datatype Mount = Mount(volume: string, path: string, name: string, encrypted: bool, sizeGb: int,
                         sizeGbLimit: int, addSizeGb: int, extendThresholdPercent: int)

  datatype Config = Config(image: string, env: Option<map<string, string>>, metadata: Option<map<string, string>>,
                           guest: Option<Guest>, services: Option<seq<Service>>,
                           restart: Option<RestartPolicy>, mounts: Option<seq<Mount>>)

  /** The zero MachineConfig. */
  const EMPTY_CONFIG := Config("", None, None, None, None, None, None)

  datatype ImageRef = ImageRef(registry: string, repository: string, tag: string, digest: string,
                               labels: Option<map<string, string>>)

  datatype Version = Version(instanceID: string, state: MachineState)

  datatype Machine = Machine(id: string, name: string, state: MachineState, region: string, instanceID: string,
                             privateIP: string, config: Option<Config>, imageRef: Option<ImageRef>,
                             createdAt: int, updatedAt: int, versions: seq<Version>, cordoned: bool)

  // ---- the unpullable-image sentinel ----

  const UNPULLABLE_IMAGE := "mudflaps/unpullable"

  predicate HasPrefix(s: string, prefix: string) {
    |prefix| <= |s| && s[..|prefix|] == prefix
  }

  predicate Unpullable(img: string) {
    || img == UNPULLABLE_IMAGE
    || HasPrefix(img, UNPULLABLE_IMAGE + ":")
    || HasPrefix(img, UNPULLABLE_IMAGE + "@")
  }

  predicate FailsToBoot(c: Option<Config>) {
    c.Some? && Unpullable(c.value.image)
  }

  predicate IsTagMark(c: char) { c == ':' || c == '@' }

  /** The repository part of an image reference: everything before its first tag or digest mark. */
  function Repository(img: string): (r: string)
    ensures |r| <= |img| && img[..|r|] == r
    ensures forall c :: c in r ==> !IsTagMark(c)
    ensures |r| < |img| ==> IsTagMark(img[|r|])
  {
    if img == "" || IsTagMark(img[0]) then ""
    else
      var rest := Repository(img[1..]);
      assert img[1..][..|rest|] == rest;
      [img[0]] + rest
  }

  /** A mark-free prefix that ends at a mark, or at the end, is the repository part. */
  lemma RepositoryIs(img: string, u: string)
    requires u <= img
    requires forall c :: c in u ==> !IsTagMark(c)
    requires |u| < |img| ==> IsTagMark(img[|u|])
    ensures Repository(img) == u
  {
    var r := Repository(img);
    assert |r| == |u|;
  }

  lemma HasPrefixThenMark(img: string, u: string, c: char)
    ensures HasPrefix(img, u + [c]) <==> u < img && img[|u|] == c
  {
    if u < img {
      assert img[..|u| + 1] == u + [img[|u|]];
    }
    if HasPrefix(img, u + [c]) {
      assert u == (u + [c])[..|u|] == img[..|u|];
      assert img[|u|] == (u + [c])[|u|];
    }
  }

  /** For a mark-free name, the three tests amount to cutting the reference at its first mark. */
  lemma PrefixTestsCutAtMark(img: string, u: string)
    requires forall c :: c in u ==> !IsTagMark(c)
    ensures img == u || HasPrefix(img, u + ":") || HasPrefix(img, u + "@") <==> Repository(img) == u
  {
    HasPrefixThenMark(img, u, ':');
    HasPrefixThenMark(img, u, '@');
    if img == u || HasPrefix(img, u + ":") || HasPrefix(img, u + "@") {
      RepositoryIs(img, u);
    }
  }

  /** A configuration fails to boot exactly when the repository part of its image is the sentinel. */
  lemma FailsToBootIffRepositoryIsSentinel(c: Config)
    ensures FailsToBoot(Some(c)) <==> Repository(c.image) == UNPULLABLE_IMAGE
  {
    hide HasPrefix, Repository;
    PrefixTestsCutAtMark(c.image, UNPULLABLE_IMAGE);
  }

  /** The state a boot settles into, judged on a configuration. */
  function Verdict(c: Option<Config>): MachineState {
    if FailsToBoot(c) then Failed else Started
  }
}
