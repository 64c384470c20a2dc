/**
 * `Euproperty_Type`: the fifteen service types a property key path can name,
 * and `get_type_by_string`, which maps a key-path segment to one of them.
 */
module PropertyType {
  import opened Wrappers

  datatype ServiceType =
    | Authentication | Autoscaling | Bootstrap | Cloud | Cloudwatch
    | Cluster | Dns | Loadbalancing | Reporting | Storage
    | System | Tagging | Vmwarebroker | Walrus | Www

  /** The tag string each class attribute holds (the attribute's own name). */
  function Name(t: ServiceType): string {
    match t
    case Authentication => "authentication"
    case Autoscaling => "autoscaling"
    case Bootstrap => "bootstrap"
    case Cloud => "cloud"
    case Cloudwatch => "cloudwatch"
    case Cluster => "cluster"
    case Dns => "dns"
    case Loadbalancing => "loadbalancing"
    case Reporting => "reporting"
    case Storage => "storage"
    case System => "system"
    case Tagging => "tagging"
    case Vmwarebroker => "vmwarebroker"
    case Walrus => "walrus"
    case Www => "www"
  }

  /**
   * `get_type_by_string`: the tag named by `s`, or None when `hasattr` is
   * false. It never raises, so an unknown segment gives None.
   */
  function FromString(s: string): (r: Option<ServiceType>)
    ensures r.Some? ==> Name(r.value) == s
    ensures r.None? ==> forall t: ServiceType :: Name(t) != s
  {
    if s == "authentication" then Some(Authentication)
    else if s == "autoscaling" then Some(Autoscaling)
    else if s == "bootstrap" then Some(Bootstrap)
    else if s == "cloud" then Some(Cloud)
    else if s == "cloudwatch" then Some(Cloudwatch)
    else if s == "cluster" then Some(Cluster)
    else if s == "dns" then Some(Dns)
    else if s == "loadbalancing" then Some(Loadbalancing)
    else if s == "reporting" then Some(Reporting)
    else if s == "storage" then Some(Storage)
    else if s == "system" then Some(System)
    else if s == "tagging" then Some(Tagging)
    else if s == "vmwarebroker" then Some(Vmwarebroker)
    else if s == "walrus" then Some(Walrus)
    else if s == "www" then Some(Www)
    else None
  }

  /** Looking a tag up by its own name finds it, so names are distinct; none contains a dot. */
  lemma NameRoundTrip(t: ServiceType)
    ensures FromString(Name(t)) == Some(t)
    ensures '.' !in Name(t) && Name(t) != ""
  {
    match t
    case Authentication =>
    case Autoscaling =>
    case Bootstrap =>
    case Cloud =>
    case Cloudwatch =>
    case Cluster =>
    case Dns =>
    case Loadbalancing =>
    case Reporting =>
    case Storage =>
    case System =>
    case Tagging =>
    case Vmwarebroker =>
    case Walrus =>
    case Www =>
  }
}
