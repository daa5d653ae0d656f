/**
 The settings of the plugin: the properties of IncusConfig and the incus.cfg variables behind them.
 */
module Settings {

  /** The properties of IncusConfig. All but the last have a shell variable. */
  datatype Field =
    | Enabled | StateDir | StorageDriver | StorageSource | StoragePoolName
    | JailBridge | JailSubnet | JailNat | JailIpv6
    | AclName | AclBlock | AclAllow | AclDefaultEgress | AclDefaultIngress
    | JailProfile | JailImage | JailNesting | JailCpu | JailMemory | JailWorkspaceRoot
    | JailAgentUid | JailAgentGid | JailBindMounts | TsAuthKey | DashboardWidgetEnable
    | TsAuthKeyConfigured

  datatype Value = Flag(on: bool) | Words(text: string)

  type Config = map<Field, Value>

  predicate Mapped(f: Field) { f != TsAuthKeyConfigured }

  predicate IsFlag(f: Field) {
    f in {Enabled, JailNat, JailNesting, DashboardWidgetEnable, TsAuthKeyConfigured}
  }

  /** What the TypeScript types of IncusConfig say. */
  predicate WellTyped(c: Config) {
    forall f :: f in c ==> if IsFlag(f) then c[f].Flag? else c[f].Words?
  }

  /** The shell variable behind a property. */
  function ShellName(f: Field): string
    requires Mapped(f)
  {
    match f
    case Enabled => "SERVICE"
    case StateDir => "INCUS_DIR"
    case StorageDriver => "STORAGE_DRIVER"
    case StorageSource => "STORAGE_SOURCE"
    case StoragePoolName => "STORAGE_POOL_NAME"
    case JailBridge => "JAIL_BRIDGE"
    case JailSubnet => "JAIL_SUBNET"
    case JailNat => "JAIL_NAT"
    case JailIpv6 => "JAIL_IPV6"
    case AclName => "ACL_NAME"
    case AclBlock => "ACL_BLOCK"
    case AclAllow => "ACL_ALLOW"
    case AclDefaultEgress => "ACL_DEFAULT_EGRESS"
    case AclDefaultIngress => "ACL_DEFAULT_INGRESS"
    case JailProfile => "JAIL_PROFILE"
    case JailImage => "JAIL_IMAGE"
    case JailNesting => "JAIL_NESTING"
    case JailCpu => "JAIL_CPU"
    case JailMemory => "JAIL_MEMORY"
    case JailWorkspaceRoot => "JAIL_WORKSPACE_ROOT"
    case JailAgentUid => "JAIL_AGENT_UID"
    case JailAgentGid => "JAIL_AGENT_GID"
    case JailBindMounts => "JAIL_BIND_MOUNTS"
    case TsAuthKey => "TS_AUTHKEY"
    case DashboardWidgetEnable => "DASHBOARD_WIDGET_ENABLE"
  }

  predicate NameChar(c: char) { 'A' <= c <= 'Z' || '0' <= c <= '9' || c == '_' }

  predicate PlainName(name: string) {
    name != "" && 'A' <= name[0] <= 'Z' && forall i :: 0 <= i < |name| ==> NameChar(name[i])
  }

  lemma PlainNames1(f: Field)
    requires f in {Enabled, StateDir, StorageDriver, StorageSource, StoragePoolName}
    ensures PlainName(ShellName(f)) && |ShellName(f)| >= 7
  {
    match f {
      case Enabled => case StateDir => case StorageDriver => case StorageSource => case StoragePoolName =>
    }
  }

  lemma PlainNames2(f: Field)
    requires f in {JailBridge, JailSubnet, JailNat, JailIpv6, AclName}
    ensures PlainName(ShellName(f)) && |ShellName(f)| >= 7
  {
    match f {
      case JailBridge => case JailSubnet => case JailNat => case JailIpv6 => case AclName =>
    }
  }

  lemma PlainNames3(f: Field)
    requires f in {AclBlock, AclAllow, AclDefaultEgress, AclDefaultIngress, JailProfile}
    ensures PlainName(ShellName(f)) && |ShellName(f)| >= 7
  {
    match f {
      case AclBlock => case AclAllow => case AclDefaultEgress => case AclDefaultIngress => case JailProfile =>
    }
  }

  lemma PlainNames4(f: Field)
    requires f in {JailImage, JailNesting, JailCpu, JailMemory, JailWorkspaceRoot}
    ensures PlainName(ShellName(f)) && |ShellName(f)| >= 7
  {
    match f {
      case JailImage => case JailNesting => case JailCpu => case JailMemory => case JailWorkspaceRoot =>
    }
  }

  lemma PlainNames5(f: Field)
    requires f in {JailAgentUid, JailAgentGid, JailBindMounts, TsAuthKey, DashboardWidgetEnable}
    ensures PlainName(ShellName(f)) && |ShellName(f)| >= 7
  {
    match f {
      case JailAgentUid => case JailAgentGid => case JailBindMounts => case TsAuthKey => case DashboardWidgetEnable =>
    }
  }

  lemma ShellNameIsPlain(f: Field)
    requires Mapped(f)
    ensures PlainName(ShellName(f)) && |ShellName(f)| >= 7
  {
    if f in {Enabled, StateDir, StorageDriver, StorageSource, StoragePoolName} {
      PlainNames1(f);
    } else if f in {JailBridge, JailSubnet, JailNat, JailIpv6, AclName} {
      PlainNames2(f);
    } else if f in {AclBlock, AclAllow, AclDefaultEgress, AclDefaultIngress, JailProfile} {
      PlainNames3(f);
    } else if f in {JailImage, JailNesting, JailCpu, JailMemory, JailWorkspaceRoot} {
      PlainNames4(f);
    } else {
      PlainNames5(f);
    }
  }

  /** No two properties share a shell variable: length, third-last and last letter tell them apart. */
  lemma ShellNameInjective(f: Field, g: Field)
    requires Mapped(f) && Mapped(g) && ShellName(f) == ShellName(g)
    ensures f == g
  {
    var n, m := ShellName(f), ShellName(g);
    ShellNameIsPlain(f);
    assert |n| == |m| && n[|n| - 3] == m[|m| - 3] && n[|n| - 1] == m[|m| - 1];
  }

  /** The order in which the source lists property/variable pairs. */
  const FIELDS: seq<Field> := [
    Enabled, StateDir, StorageDriver, StorageSource, StoragePoolName,
    JailBridge, JailSubnet, JailNat, JailIpv6,
    AclName, AclBlock, AclAllow, AclDefaultEgress, AclDefaultIngress,
    JailProfile, JailImage, JailNesting, JailCpu, JailMemory, JailWorkspaceRoot,
    JailAgentUid, JailAgentGid, JailBindMounts, TsAuthKey, DashboardWidgetEnable
  ]

  lemma FieldsAreMapped()
    ensures forall f :: f in FIELDS <==> Mapped(f)
  {
  }
}
