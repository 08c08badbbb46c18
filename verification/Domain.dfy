/** The container record shared by the registry, reconciliation and the lifecycle. */
module Domain {
  import opened PortMap

  type ContainerID = string

  /** An instant; 0 is the zero time. */
  type Time = int

  datatype ContainerState = Unknown | Created | Running | Paused | Restarting | Removing | Exited | Dead

  datatype Container = Container(
    id: ContainerID,
    name: string,
    image: string,
    imageReference: string,
    state: ContainerState,
    updatedAt: Time,
    exitCode: int,
    oomKilled: bool,
    dead: bool,
    error: string,
    startedAt: Time,
    finishedAt: Time,
    portBindings: seq<PortBinding>,
    networks: seq<string>)

  /** Either image name stands in for the other when it is missing. */
  function FillImages(c: Container): Container {
    var reference := if c.imageReference == "" then c.image else c.imageReference;
    c.(imageReference := reference, image := if c.image == "" then reference else c.image)
  }
}
