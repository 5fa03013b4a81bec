/**
 * The Deckhand itself (deckhand/deckhand.go, and its event methods in
 * deckhand/events.go): it chooses its store namespace at start-up and
 * turns each Docker event into shell hooks and a repository action.
 *
 * Inspecting a container through Docker is an input to the model: the
 * inspected container, or None when the inspection fails.
 */
module Deckhand {
  import opened Wrappers
  import opened Docker
  import opened Globals
  import opened Etcd
  import opened Events

  /**
   * The root-key assignment of `NewDeckhand`. Creating the Docker client,
   * the proxy and the repository is not part of this model.
   */
  method NewDeckhand(env: Env, mode: string)
    modifies env
    ensures env.rootKey == RootKey(mode, old(env.hostName)) && env.hostName == old(env.hostName)
  {
    if mode == "master" {
      env.rootKey := "/masters";
    } else {
      env.rootKey := "/slaves/" + env.hostName;
    }
  }

  /** Where the status switch of dockerEvent sends an event. */
  datatype Route = Start | Die | Destroy | Ignore

  /** The status switch: "kill" has an empty case, so it goes nowhere, like any other status. */
  function RouteOf(status: string): Route
  {
    if status == "start" then Start
    else if status == "die" then Die
    else if status == "destroy" then Destroy
    else Ignore
  }

  /** What an event does to the repository. */
  datatype RepoAction = NoAction | PutInfo(info: ContainerInfo) | RemoveInfo(info: ContainerInfo)

  /**
   * The repository action for an event with this status, given the
   * inspection of its container: start puts, die and destroy remove, both
   * with the inspected record; a failed inspection drops the event.
   */
  function EventAction(status: string, inspected: Option<ContainerInfo>): RepoAction
  {
    match RouteOf(status)
    case Ignore => NoAction
    case Start => if inspected.None? then NoAction else PutInfo(inspected.value)
    case Die => if inspected.None? then NoAction else RemoveInfo(inspected.value)
    case Destroy => if inspected.None? then NoAction else RemoveInfo(inspected.value)
  }

  /** Status routing, each case in both directions. */
  lemma EventActionExact(status: string, inspected: Option<ContainerInfo>, ci: ContainerInfo)
    ensures EventAction(status, inspected) == PutInfo(ci) <==> status == "start" && inspected == Some(ci)
    ensures EventAction(status, inspected) == RemoveInfo(ci) <==>
      (status == "die" || status == "destroy") && inspected == Some(ci)
    ensures EventAction(status, inspected).NoAction? <==>
      inspected.None? || (status != "start" && status != "die" && status != "destroy")
  {
  }

  /** "kill" leads to no repository action, whatever the inspection. */
  lemma KillIsIgnored(inspected: Option<ContainerInfo>)
    ensures EventAction("kill", inspected) == NoAction
  {
  }

  /** The store after a repository action. */
  function Apply(s: StoreState, root: string, encode: ContainerInfo -> Option<string>, a: RepoAction): StoreState
  {
    match a
    case NoAction => s
    case PutInfo(ci) => AfterPut(s, root, encode(ci), ci.id)
    case RemoveInfo(ci) => AfterRemove(s, root, ci.id)
  }

  /** The Deckhand: its handler directory and its repository. */
  class Deckhand {
    const handlerDir: string
    const repo: EtcdRepo

    constructor (handlerDir: string, repo: EtcdRepo)
      ensures this.handlerDir == handlerDir && this.repo == repo
    {
      this.handlerDir, this.repo := handlerDir, repo;
    }

    /** `containerStart`: Put the inspected container; a failed inspection drops the event. */
    method ContainerStart(inspected: Option<ContainerInfo>)
      modifies repo.store
      ensures repo.store.State() == Apply(old(repo.store.State()), repo.env.rootKey, repo.encode, EventAction("start", inspected))
    {
      if inspected.None? {
        return;
      }
      var err := repo.Put(inspected.value);
    }

    /** `containerDie`: Remove the inspected container; a failed inspection drops the event. */
    method ContainerDie(inspected: Option<ContainerInfo>)
      modifies repo.store
      ensures repo.store.State() == Apply(old(repo.store.State()), repo.env.rootKey, repo.encode, EventAction("die", inspected))
    {
      if inspected.None? {
        return;
      }
      var err := repo.Remove(inspected.value);
    }

    /** `containerDestroy`: as containerDie. */
    method ContainerDestroy(inspected: Option<ContainerInfo>)
      modifies repo.store
      ensures repo.store.State() == Apply(old(repo.store.State()), repo.env.rootKey, repo.encode, EventAction("destroy", inspected))
    {
      if inspected.None? {
        return;
      }
      var err := repo.Remove(inspected.value);
    }

    /**
     * `dockerEvent`: the shell hooks of the event run first, for every
     * status; a failing hook ends the process before any repository
     * action; otherwise the status switch picks the action.
     */
    method DockerEvent(event: Event, entries: Option<seq<string>>, run: (string, string) -> bool,
                       inspected: Option<ContainerInfo>)
      returns (ran: seq<string>, fatal: bool)
      modifies repo.store
      ensures (ran, fatal) == ShellOutcome(handlerDir, entries, event.status, event.id, run)
      ensures fatal ==> unchanged(repo.store)
      ensures !fatal ==>
        repo.store.State() == Apply(old(repo.store.State()), repo.env.rootKey, repo.encode, EventAction(event.status, inspected))
    {
      ran, fatal := ShellEvents(handlerDir, entries, event.status, event.id, run);
      if fatal {
        return;
      }
      match RouteOf(event.status) {
        case Start => ContainerStart(inspected);
        case Die => ContainerDie(inspected);
        case Destroy => ContainerDestroy(inspected);
        case Ignore =>
      }
    }
  }
}
