/** Who a ServiceAccount rule admits, in terms of the certificates the signer hands out. */
module Identity {
  import opened Options
  import opened EnvoyRbac
  import opened Spiffe
  import opened AccessPolicies

  /**
   A ServiceAccount rule admits a peer with a certificate of this signer exactly when the
   certificate was issued to the account the rule names, in the rule's namespace or, when the rule
   leaves it out, in the namespace of the policy.
   */
  lemma RuleAdmitsExactlyItsAccount(trustDomain: string, policyNamespace: string, account: ServiceAccount,
                                    ns: string, sa: string, req: Request)
    requires TrustDomain(trustDomain) && trustDomain != ""
    requires DnsName(policyNamespace) && DnsName(account.name)
    requires (account.namespace == "" || DnsName(account.namespace))
    requires DnsName(ns) && DnsName(sa)
    requires req.peer == {SignedUri(trustDomain, ns, sa)}
    ensures Admits(trustDomain, policyNamespace, Source(ServiceAccountSource, None, Some(account)), req) <==>
              sa == account.name && ns == if account.namespace == "" then policyNamespace else account.namespace
  {
    var meant := if account.namespace == "" then policyNamespace else account.namespace;
    SignerAndCompilerAgree(trustDomain, ns, sa);
    assert '/' !in trustDomain && '/' !in ns && '/' !in sa && '/' !in meant && '/' !in account.name;
    if PrincipalName(trustDomain, meant, account.name) == PrincipalName(trustDomain, ns, sa) {
      PrincipalsAreInjective(trustDomain, meant, account.name, trustDomain, ns, sa);
    }
  }
}
