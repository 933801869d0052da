/** The execution limits, and what a limit covers. */
module Config {
  import opened Options
  import opened Rows

  /** internal/config.Config reduced to its limits; a missing or zero limit means unlimited. */
  datatype Config = Config(global: int, queues: map<string, int>, taskTypes: map<string, int>) {

    predicate Valid() {
      && 1 <= global
      && (forall q :: q in queues ==> 0 <= queues[q])
      && (forall t :: t in taskTypes ==> 0 <= taskTypes[t])
    }

    function QueueLimit(queue: string): int {
      if queue in queues then queues[queue] else 0
    }

    function TaskTypeLimit(typ: string): int {
      if typ in taskTypes then taskTypes[typ] else 0
    }

    function Limit(scope: Scope): Option<int> {
      match scope
      case Everywhere => Some(global)
      case InQueue(q) => if QueueLimit(q) > 0 then Some(QueueLimit(q)) else None
      case OfType(t) => if TaskTypeLimit(t) > 0 then Some(TaskTypeLimit(t)) else None
    }
  }

  /** The three families of tasks that a limit can be put on. */
  datatype Scope = Everywhere | InQueue(queue: string) | OfType(typ: string) {
    predicate Covers(row: Task) {
      match this
      case Everywhere => true
      case InQueue(q) => row.queue == q
      case OfType(t) => row.typ == t
    }
  }

  ghost function RunningIn(tasks: map<Id, Task>, scope: Scope): set<Id> {
    set t | t in tasks && tasks[t].status == Running && scope.Covers(tasks[t])
  }

  ghost predicate AtLimit(cfg: Config, tasks: map<Id, Task>, scope: Scope) {
    cfg.Limit(scope).Some? && cfg.Limit(scope).value <= |RunningIn(tasks, scope)|
  }

  datatype ConfigError = BadGlobal | BadQueue(name: string) | BadTaskType(name: string)

  /** Accepts exactly the valid configurations; a complaint names an entry that is really negative. */
  method Validate(cfg: Config) returns (err: Option<ConfigError>)
    ensures err.None? <==> cfg.Valid()
    ensures err.None? <==> && cfg.global >= 1
                           && (forall q :: q in cfg.queues ==> cfg.queues[q] >= 0)
                           && (forall t :: t in cfg.taskTypes ==> cfg.taskTypes[t] >= 0)
    ensures err == Some(BadGlobal) <==> cfg.global < 1
    ensures forall q :: err == Some(BadQueue(q)) ==> q in cfg.queues && cfg.queues[q] < 0
    ensures forall t :: err == Some(BadTaskType(t)) ==> t in cfg.taskTypes && cfg.taskTypes[t] < 0
  {
    if cfg.global < 1 {
      return Some(BadGlobal);
    }
    var names := cfg.queues.Keys;
    while names != {}
      invariant names <= cfg.queues.Keys
      invariant forall q :: q in cfg.queues && q !in names ==> 0 <= cfg.queues[q]
    {
      var q :| q in names;
      if cfg.queues[q] < 0 {
        return Some(BadQueue(q));
      }
      names := names - {q};
    }
    names := cfg.taskTypes.Keys;
    while names != {}
      invariant names <= cfg.taskTypes.Keys
      invariant forall t :: t in cfg.taskTypes && t !in names ==> 0 <= cfg.taskTypes[t]
    {
      var t :| t in names;
      if cfg.taskTypes[t] < 0 {
        return Some(BadTaskType(t));
      }
      names := names - {t};
    }
    return None;
  }
}
