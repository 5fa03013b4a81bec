/**
 * The parts of the container runtime's records that the controller reads:
 * the inspected container (`dockerclient.ContainerInfo`) and a lifecycle
 * event (`dockerclient.Event`).
 */
module Docker {
  /** One host binding of a published port; the runtime gives the host port as text. */
  datatype PortBinding = PortBinding(hostIp: string, hostPort: string)

  /**
   * An inspected container: `Id`, `Config.Image`, `NetworkSettings.IpAddress`
   * and `NetworkSettings.Ports`, which maps a key such as "80/tcp" to the
   * host bindings of that container port.
   */
  datatype ContainerInfo = ContainerInfo(
    id: string,
    image: string,
    ipAddress: string,
    ports: map<string, seq<PortBinding>>)

  /** A runtime lifecycle event: its status ("start", "die", ...) and container id. */
  datatype Event = Event(status: string, id: string)
}
