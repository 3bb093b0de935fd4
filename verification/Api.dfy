/** The stored objects of the orchestrator.  Timestamps are not modelled. */
module Api {
  import opened Tables

  type Labels = map<string, string>

  const LABEL_REPLICASET := "mk.replicaset"
  const LABEL_DEPLOYMENT := "mk.deployment"

  /** Reading a Go string map: a missing key reads as the empty string. */
  function Label(labels: Labels, key: string): string {
    if key in labels then labels[key] else ""
  }

  /** Pod phases are strings; `Unset` is the empty one and `Other` any text outside the five constants. */
  datatype Phase = Unset | Pending | Scheduled | Running | Succeeded | Failed | Other(text: string)

  datatype ContainerPort = ContainerPort(name: string, containerPort: int, protocol: string)

  datatype Container = Container(
    name: string, image: string, args: seq<string>, ports: seq<ContainerPort>, limits: Labels)

  datatype PodStatus = PodStatus(
    phase: Phase, nodeName: string, containerId: string, message: string, podIP: string, hostPort: int)

  const NO_STATUS := PodStatus(Unset, "", "", "", "", 0)

  datatype Pod = Pod(ns: string, labels: Labels, containers: seq<Container>, status: PodStatus)

  datatype Template = Template(labels: Labels, containers: seq<Container>)

  /** The spec of both a ReplicaSet and a Deployment. */
  datatype WorkloadSpec = WorkloadSpec(replicas: int, selector: Labels, template: Template)

  /** The status of both a ReplicaSet and a Deployment. */
  datatype WorkloadStatus = WorkloadStatus(replicas: int, readyReplicas: int)

  const NO_WORKLOAD_STATUS := WorkloadStatus(0, 0)

  datatype Workload = Workload(ns: string, labels: Labels, spec: WorkloadSpec, status: WorkloadStatus)

  datatype ServicePort = ServicePort(name: string, port: int, targetPort: int, protocol: string)

  datatype Service = Service(ns: string, selector: Labels, ports: seq<ServicePort>, kind: string, clusterIP: string)

  /** One backend of a service. */
  datatype Address = Address(ip: string, port: int, nodeName: string, podName: string)

  type PodTable = Table<Pod>
  type WorkloadTable = Table<Workload>
  type ServiceTable = Table<Service>
}
