/** Identifiers, clock units and small helpers shared by the models of the control plane. */
module Records {

  datatype Option<+T> = None | Some(value: T)

  datatype SandboxId = SandboxId(uuid: nat)
  datatype VolumeId = VolumeId(uuid: nat)
  datatype HostId = HostId(uuid: nat)
  datatype TeamId = TeamId(uuid: nat)

  /** Instants and durations, in nanoseconds. */
  type Time = int

  /** Any element of a non-empty set: the order in which a map or a result set is walked is not fixed. */
  method Pick<T>(s: set<T>) returns (x: T)
    requires s != {}
    ensures x in s
  {
    x :| x in s;
  }

  lemma Associative<T>(a: seq<T>, b: seq<T>, c: seq<T>)
    ensures a + b + c == a + (b + c)
  {
  }

  const SECOND: Time := 1_000_000_000
  const MINUTE: Time := 60 * SECOND
}
