/** The coordinator's records: services, deployments of a service at a site,
    their instances, candidates, measurements, allocation requests and
    responses, and the rows of the c-ps view. Go's `int` is modelled as
    Dafny's unbounded `int`. */
module CenterTypes {

  /** A registered service description; `serviceId` is its key. */
  datatype Service = Service(
    serviceId: string,
    serviceName: string,
    input: string,
    serviceDescription: string,
    serviceRuningCode: string,
    computingRequirement: string,
    storageRequirement: string,
    computingTime: string,
    softwareDependency: string,
    dataSample: string,
    result: string)

  /** One network-addressable copy of a service at a site. */
  datatype Instance = Instance(instanceId: string, addr: string)

  /** A service deployed at a site: total slots (`gas`), price (`cost`),
      the `|`-separated instance list `csciId` and the instances. */
  datatype Deployment = Deployment(
    siteName: string,
    serviceId: string,
    gas: int,
    cost: int,
    csciId: string,
    instances: seq<Instance>)

  /** A deployment together with its number of free slots. */
  datatype DeploymentState = DeploymentState(deployment: Deployment, gasAvailable: int)

  /** Which site and instance an allocation holds. */
  datatype AllocationRecord = AllocationRecord(serviceId: string, siteName: string, instanceId: string)

  /** One site that deploys the requested service. */
  datatype Candidate = Candidate(
    siteName: string,
    serviceId: string,
    gas: int,
    cost: int,
    csciId: string,
    instances: seq<Instance>)

  /** A client-measured round-trip delay to one instance. */
  datatype Measurement = Measurement(siteName: string, instanceId: string, addr: string, delayMs: int)

  datatype AllocateRequest = AllocateRequest(serviceId: string, measurements: seq<Measurement>)

  datatype AllocateResponse = AllocateResponse(
    allocationId: string,
    serviceId: string,
    instanceId: string,
    addr: string,
    csciId: string,
    cost: int,
    gasRemaining: int)

  /** One row of the c-ps view. */
  datatype CpsViewRow = CpsViewRow(
    csId: string,
    csciId: string,
    gas: int,
    cost: int,
    computingtime: string,
    networkdelay: int)

  /** SiteName -> ServiceID -> state, the shape of the store's deployment table. */
  type Deployments = map<string, map<string, DeploymentState>>
}
