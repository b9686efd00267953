/** Cross-namespace references from HTTPRoutes to Services (pkg/translator/referencegrant.go). */
module ReferenceGrants {

  const GATEWAY_GROUP := "gateway.networking.k8s.io"

  datatype From = From(group: string, kind: string, namespace: string)

  datatype To = To(group: string, kind: string)

  datatype Grant = Grant(namespace: string, from: seq<From>, to: seq<To>)

  predicate AdmitsRoutesOf(f: From, routeNamespace: string) {
    f == From(GATEWAY_GROUP, "HTTPRoute", routeNamespace)
  }

  predicate OpensServices(t: To) { t == To("", "Service") }

  /** Some grant in the backend's namespace names the route's namespace and Services. */
  predicate AllowedByReferenceGrant(routeNamespace: string, backendNamespace: string, grants: seq<Grant>) {
    || routeNamespace == backendNamespace
    || exists g :: 0 <= g < |grants| && grants[g].namespace == backendNamespace
         && (exists i :: 0 <= i < |grants[g].from| && AdmitsRoutesOf(grants[g].from[i], routeNamespace))
         && (exists j :: 0 <= j < |grants[g].to| && OpensServices(grants[g].to[j]))
  }

  /** One grant, in the backend's namespace, names both the HTTPRoutes of the one and the Services of the other. */
  ghost predicate Granted(routeNamespace: string, backendNamespace: string, grants: seq<Grant>) {
    exists g, f, t ::
      && g in grants && f in g.from && t in g.to
      && g.namespace == backendNamespace
      && f.group == "gateway.networking.k8s.io" && f.kind == "HTTPRoute" && f.namespace == routeNamespace
      && t.group == "" && t.kind == "Service"
  }

  lemma AllowedIffGranted(routeNamespace: string, backendNamespace: string, grants: seq<Grant>)
    ensures AllowedByReferenceGrant(routeNamespace, backendNamespace, grants) <==>
              routeNamespace == backendNamespace || Granted(routeNamespace, backendNamespace, grants)
  {
    if g, f, t :| && g in grants && f in g.from && t in g.to && g.namespace == backendNamespace
                  && AdmitsRoutesOf(f, routeNamespace) && OpensServices(t) {
      assert Granted(routeNamespace, backendNamespace, grants);
    }
    if g :| 0 <= g < |grants| && grants[g].namespace == backendNamespace
            && (exists i :: 0 <= i < |grants[g].from| && AdmitsRoutesOf(grants[g].from[i], routeNamespace))
            && (exists j :: 0 <= j < |grants[g].to| && OpensServices(grants[g].to[j])) {
      var i :| 0 <= i < |grants[g].from| && AdmitsRoutesOf(grants[g].from[i], routeNamespace);
      var j :| 0 <= j < |grants[g].to| && OpensServices(grants[g].to[j]);
      assert grants[g] in grants && grants[g].from[i] in grants[g].from && grants[g].to[j] in grants[g].to;
    }
  }
}
