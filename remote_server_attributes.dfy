/**
 * RemoteCacheServerAttributes: the configuration bean of a remote cache
 * server, its documented defaults and the mapping between the remote type
 * and its name "LOCAL" or "CLUSTER".
 */
module RemoteServerAttributes {
  import opened Optional

  /** Java int and long. */
  newtype Int32 = x: int | -0x8000_0000 <= x < 0x8000_0000
  newtype Int64 = x: int | -0x8000_0000_0000_0000 <= x < 0x8000_0000_0000_0000

  /** The remote types of the remote cache constants (their values are not part of this model; any two distinct ints do). */
  const Local: Int32 := 0
  const Cluster: Int32 := 1

  /** The default timeout of the server's socket factory, in milliseconds. */
  const DefaultRmiSocketFactoryTimeoutMillis: Int32 := 10000

  /** getRemoteTypeName(): "CLUSTER" for a cluster server, "LOCAL" for anything else. */
  function RemoteTypeName(remoteType: Int32): (r: string)
    ensures r == "CLUSTER" <==> remoteType == Cluster
    ensures r == "LOCAL" <==> remoteType != Cluster
  {
    if remoteType == Local then "LOCAL"
    else if remoteType == Cluster then "CLUSTER"
    else "LOCAL"
  }

  /** setRemoteTypeName(s): the remote type after the call; a name other than the two leaves it as it was. */
  function RemoteTypeOfName(s: string, remoteType: Int32): (r: Int32)
    ensures s == "LOCAL" ==> r == Local
    ensures s == "CLUSTER" ==> r == Cluster
    ensures s != "LOCAL" && s != "CLUSTER" ==> r == remoteType
  {
    if s == "LOCAL" then Local
    else if s == "CLUSTER" then Cluster
    else remoteType
  }

  /** Setting a type by one of its two names and reading the name back gives the name. */
  lemma NameRoundTrip(s: string, remoteType: Int32)
    requires s == "LOCAL" || s == "CLUSTER"
    ensures RemoteTypeName(RemoteTypeOfName(s, remoteType)) == s
  {
  }

  /**
   * Setting the name that is read back keeps a LOCAL or CLUSTER type, and
   * turns any other type into LOCAL.
   */
  lemma TypeRoundTrip(remoteType: Int32)
    ensures remoteType == Local || remoteType == Cluster ==>
              RemoteTypeOfName(RemoteTypeName(remoteType), remoteType) == remoteType
    ensures remoteType != Local && remoteType != Cluster ==>
              RemoteTypeOfName(RemoteTypeName(remoteType), remoteType) == Local
  {
  }

  class RemoteCacheServerAttributes {
    var remoteServiceName: string
    var remoteHost: Option<string>
    var remotePort: Int32
    var clusterServers: string
    var servicePort: Int32
    var remoteType: Int32
    var removeUponRemotePut: bool
    var getOnly: bool
    var localClusterConsistency: bool
    var allowClusterGet: bool
    var configFileName: string
    var rmiSocketFactoryTimeoutMillis: Int32
    var startRegistry: bool
    var useRegistryKeepAlive: bool
    var registryKeepAliveDelayMillis: Int64

    /** A fresh bean holds the documented defaults; the service name is the remote cache service constant. */
    constructor (remoteCacheServiceVal: string)
      ensures remoteServiceName == remoteCacheServiceVal && remoteHost == None && remotePort == 0
      ensures clusterServers == "" && servicePort == 0 && remoteType == Local
      ensures removeUponRemotePut && !getOnly && localClusterConsistency && allowClusterGet
      ensures configFileName == "" && rmiSocketFactoryTimeoutMillis == DefaultRmiSocketFactoryTimeoutMillis
      ensures startRegistry && useRegistryKeepAlive && registryKeepAliveDelayMillis == 15 * 1000
      ensures GetRemoteTypeName() == "LOCAL"
    {
      remoteServiceName := remoteCacheServiceVal;
      remoteHost := None;
      remotePort := 0;
      clusterServers := "";
      servicePort := 0;
      remoteType := Local;
      removeUponRemotePut := true;
      getOnly := false;
      localClusterConsistency := true;
      allowClusterGet := true;
      configFileName := "";
      rmiSocketFactoryTimeoutMillis := DefaultRmiSocketFactoryTimeoutMillis;
      startRegistry := true;
      useRegistryKeepAlive := true;
      registryKeepAliveDelayMillis := 15 * 1000;
    }

    function GetRemoteTypeName(): (r: string)
      reads this
      ensures r == "CLUSTER" <==> remoteType == Cluster
      ensures r == "LOCAL" <==> remoteType != Cluster
    {
      RemoteTypeName(remoteType)
    }

    method SetRemoteTypeName(s: string)
      modifies this`remoteType
      ensures remoteType == RemoteTypeOfName(s, old(remoteType))
      ensures s == "LOCAL" || s == "CLUSTER" ==> GetRemoteTypeName() == s
    {
      if s == "LOCAL" {
        remoteType := Local;
      } else if s == "CLUSTER" {
        remoteType := Cluster;
      }
    }

    function GetRemoteType(): Int32
      reads this
    {
      remoteType
    }

    method SetRemoteType(p: Int32)
      modifies this`remoteType
      ensures GetRemoteType() == p
    {
      remoteType := p;
    }

    /** getLocalClusterConsistency() is an alias of isLocalClusterConsistency(). */
    function GetLocalClusterConsistency(): (r: bool)
      reads this
      ensures r == IsLocalClusterConsistency()
    {
      IsLocalClusterConsistency()
    }

    function IsLocalClusterConsistency(): bool
      reads this
    {
      localClusterConsistency
    }

    method SetLocalClusterConsistency(r: bool)
      modifies this`localClusterConsistency
      ensures GetLocalClusterConsistency() == r && IsLocalClusterConsistency() == r
    {
      localClusterConsistency := r;
    }

    /** getAllowClusterGet() is an alias of isAllowClusterGet(). */
    function GetAllowClusterGet(): (r: bool)
      reads this
      ensures r == IsAllowClusterGet()
    {
      IsAllowClusterGet()
    }

    function IsAllowClusterGet(): bool
      reads this
    {
      allowClusterGet
    }

    method SetAllowClusterGet(r: bool)
      modifies this`allowClusterGet
      ensures GetAllowClusterGet() == r && IsAllowClusterGet() == r
    {
      allowClusterGet := r;
    }
  }
}
