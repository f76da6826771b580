/**
 * An object store backend as hestia's HSM service records it: its type, its
 * configuration, where its plugin lives, and the tiers it serves. The type
 * decides whether the backend is an HSM backend, a plugin, a mock, or built in.
 */
module ObjectStoreBackend {
  import Dictionary

  /**
   * ObjectStoreBackend::Type: the ten types the classification names, and
   * any other member of the enum.
   */
  datatype BackendType =
    | Motr | FileHsm | CustomHsm | MemoryHsm
    | Phobos | S3 | Custom
    | MockMotr | MockPhobos | MockS3
    | OtherType(raw: int)

  /** is_hsm. */
  predicate IsHsmType(t: BackendType)
  {
    t == Motr || t == FileHsm || t == CustomHsm || t == MemoryHsm
  }

  /** is_plugin. */
  predicate IsPluginType(t: BackendType)
  {
    t == Motr || t == Phobos || t == S3 || t == Custom || t == MockMotr || t == MockPhobos || t == MockS3
  }

  /** is_mock. */
  predicate IsMockType(t: BackendType)
  {
    t == MockMotr || t == MockPhobos || t == MockS3
  }

  /** is_built_in. */
  predicate IsBuiltInType(t: BackendType)
  {
    !IsPluginType(t)
  }

  /** Every mock backend is loaded as a plugin. */
  lemma MockIsPlugin(t: BackendType)
    ensures IsMockType(t) ==> IsPluginType(t) && !IsBuiltInType(t)
  {
  }

  /** Motr is the one type that is both an HSM backend and a plugin; the other HSM backends are built in. */
  lemma HsmPluginIsMotr(t: BackendType)
    ensures IsHsmType(t) && IsPluginType(t) <==> t == Motr
    ensures IsHsmType(t) && t != Motr ==> IsBuiltInType(t)
  {
  }

  /** No mock is an HSM backend, and a type the classification does not name is built in and neither HSM nor mock. */
  lemma MockAndOtherTypes(t: BackendType)
    ensures IsMockType(t) ==> !IsHsmType(t)
    ensures t.OtherType? ==> IsBuiltInType(t) && !IsHsmType(t) && !IsMockType(t)
  {
  }

  class ObjectStoreBackend {
    var backendType: BackendType
    var config: Dictionary.Dict
    var pluginPath: string
    var customIdentifier: string
    var tierNames: seq<string>
    var nodeId: string
    var tierIds: seq<string>

    /** ObjectStoreBackend(Type): the given type, everything else empty. */
    constructor (clientType: BackendType)
      ensures GetBackend() == clientType
      ensures config == Dictionary.EmptyOf(Dictionary.Map)
      ensures pluginPath == "" && customIdentifier == "" && nodeId == ""
      ensures GetTierNames() == [] && tierIds == []
    {
      backendType := clientType;
      config := Dictionary.EmptyOf(Dictionary.Map);
      pluginPath := "";
      customIdentifier := "";
      tierNames := [];
      nodeId := "";
      tierIds := [];
    }

    /** The copy constructor: every field as in the original. */
    constructor Copy(other: ObjectStoreBackend)
      ensures backendType == other.backendType && config == other.config
      ensures pluginPath == other.pluginPath && customIdentifier == other.customIdentifier
      ensures tierNames == other.tierNames && nodeId == other.nodeId && tierIds == other.tierIds
    {
      backendType := other.backendType;
      config := other.config;
      pluginPath := other.pluginPath;
      customIdentifier := other.customIdentifier;
      tierNames := other.tierNames;
      nodeId := other.nodeId;
      tierIds := other.tierIds;
    }

    function GetBackend(): BackendType
      reads this
    {
      backendType
    }

    predicate IsHsm()
      reads this
    {
      IsHsmType(backendType)
    }

    predicate IsPlugin()
      reads this
    {
      IsPluginType(backendType)
    }

    predicate IsMock()
      reads this
    {
      IsMockType(backendType)
    }

    predicate IsBuiltIn()
      reads this
    {
      IsBuiltInType(backendType)
    }

    function GetTierNames(): seq<string>
      reads this
    {
      tierNames
    }

    /** set_tier_names: replaces the tier names and nothing else. */
    method SetTierNames(names: seq<string>)
      modifies this
      ensures GetTierNames() == names
      ensures backendType == old(backendType) && config == old(config)
      ensures pluginPath == old(pluginPath) && customIdentifier == old(customIdentifier)
      ensures nodeId == old(nodeId) && tierIds == old(tierIds)
    {
      tierNames := names;
    }

    /**
     * operator=: takes every field of the other backend; assigning a backend
     * to itself changes nothing.
     */
    method Assign(other: ObjectStoreBackend)
      modifies this
      ensures backendType == old(other.backendType) && config == old(other.config)
      ensures pluginPath == old(other.pluginPath) && customIdentifier == old(other.customIdentifier)
      ensures tierNames == old(other.tierNames) && nodeId == old(other.nodeId) && tierIds == old(other.tierIds)
    {
      if this != other {
        backendType := other.backendType;
        config := other.config;
        pluginPath := other.pluginPath;
        customIdentifier := other.customIdentifier;
        tierNames := other.tierNames;
        nodeId := other.nodeId;
        tierIds := other.tierIds;
      }
    }
  }

  /** The classification follows the type alone: a backend's predicates are those of its type, whatever else it holds. */
  lemma ClassificationOfBackend(b: ObjectStoreBackend)
    ensures b.IsBuiltIn() <==> !b.IsPlugin()
    ensures b.IsMock() ==> b.IsPlugin()
    ensures b.IsHsm() && b.IsPlugin() <==> b.GetBackend() == Motr
  {
  }
}
