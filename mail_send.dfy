/** One outgoing mail as the plugin's callbacks see it once an accepted
    `WP_MAIL_FROM` has registered the workaround and the from-address filter:
    the two `wp_mail` filters in the order they were registered (the body
    filter only when `WP_MAIL_HOME` registered it), then the `wp_mail_from`
    filters by priority (the cleanup, when it is registered, at 1 before the
    from-address filter at 999). */
module MailSend {
  import opened Php
  import opened Strings
  import opened Hooks
  import opened Server
  import opened MailFrom

  method SendMail(p: WPMailFrom, server: Env, registry: Registry,
                  atts: map<string, Value>, homeUrl: string, proposedFrom: string)
    returns (sent: map<string, Value>, from: string)
    requires ServerVarFilter in registry.log && FromFilter in registry.log
    modifies server, registry
    ensures sent == if BodyFilter in old(registry.log) then p.WpMailBody(atts, homeUrl) else atts
    ensures from == p.emailFrom
    ensures ServerVarFilter in registry.log && FromFilter in registry.log
    ensures !IsSet(old(server.vars), ServerName) ==>
              && registry.log == old(registry.log) + [CleanupFilter]
              && server.vars == old(server.vars) - {ServerName}
    ensures ServerName !in old(server.vars) ==> server.vars == old(server.vars)
    ensures IsSet(old(server.vars), ServerName) ==> registry.log == old(registry.log)
    ensures IsSet(old(server.vars), ServerName) && CleanupFilter !in old(registry.log) ==>
              server.vars == old(server.vars)
    ensures IsSet(old(server.vars), ServerName) && CleanupFilter in old(registry.log) ==>
              server.vars == old(server.vars) - {ServerName}
  {
    var a := p.SetServerVar(atts, server, registry);
    sent := a;
    if BodyFilter in registry.log {
      sent := p.WpMailBody(a, homeUrl);
    }
    var f := proposedFrom;
    if CleanupFilter in registry.log {
      f := p.UnsetServerVar(f, server);
    }
    from := p.WpMailFrom(f);
    if !IsSet(old(server.vars), ServerName) {
      assert server.vars == old(server.vars)[ServerName := Str(p.domain)] - {ServerName};
      assert server.vars == old(server.vars) - {ServerName};
    }
    if ServerName !in old(server.vars) {
      CycleRestores(old(server.vars), p.domain);
    }
  }

  /** Two sends in one request, where other code sets `SERVER_NAME` between
      them: the cleanup registered by the first send is still registered, so
      the second send removes the value the other code set. */
  method TwoSends(p: WPMailFrom, server: Env, registry: Registry,
                  atts: map<string, Value>, homeUrl: string, proposedFrom: string,
                  otherServerName: string)
    returns (from1: string, from2: string)
    requires ServerVarFilter in registry.log && FromFilter in registry.log
    requires ServerName !in server.vars
    modifies server, registry
    ensures from1 == p.emailFrom && from2 == p.emailFrom
    ensures registry.log == old(registry.log) + [CleanupFilter]
    ensures server.vars == old(server.vars)
  {
    var sent1, sent2;
    sent1, from1 := SendMail(p, server, registry, atts, homeUrl, proposedFrom);
    assert CleanupFilter in registry.log;
    // Other code in the same request sets the variable.
    server.vars := server.vars[ServerName := Str(otherServerName)];
    ghost var between := server.vars;
    sent2, from2 := SendMail(p, server, registry, atts, homeUrl, proposedFrom);
    assert server.vars == between - {ServerName};
    assert server.vars == old(server.vars);
  }

  /** Setup on a single site whose URL host is `www.example.com` gives the
      domain `example.com`; with no configured address the from-address is
      `no-reply@example.com`, and a configured one is kept. */
  lemma SetupExample()
    ensures SiteDomain(SingleSite(Some("www.example.com"), "Example")) == "example.com"
    ensures FromAddress("", DefaultUsername, "example.com") == "no-reply@example.com"
    ensures FromAddress("hello@x.com", DefaultUsername, "example.com") == "hello@x.com"
  {
    assert "www.example.com" == WwwPrefix + "example.com";
    StripWwwOnce("example.com");
  }

  /** A host without `www.` is kept whole; the prefix is matched
      case-sensitively and only once. */
  lemma DomainExamples()
    ensures SiteDomain(SingleSite(Some("shop.example.com"), "Shop")) == "shop.example.com"
    ensures SiteDomain(SingleSite(Some("WWW.example.com"), "Example")) == "WWW.example.com"
    ensures SiteDomain(SingleSite(Some("www.www.example.com"), "Example")) == "www.example.com"
  {
    assert !(WwwPrefix <= "shop.example.com") by {
      assert "shop.example.com"[0] != WwwPrefix[0];
    }
    assert !(WwwPrefix <= "WWW.example.com") by {
      assert "WWW.example.com"[0] != WwwPrefix[0];
    }
    assert "www.www.example.com" == WwwPrefix + "www.example.com";
    StripWwwOnce("www.example.com");
  }

  /** A message whose leading part has no position where the home URL starts
      (counting matches that run on into the rest of the message), followed
      by the home URL and a tail that does not contain it, has exactly that
      one occurrence replaced. */
  lemma ReplaceOneOccurrence(before: string, home: string, after: string, public: string)
    requires home != []
    requires forall i :: 0 <= i < |before| ==> !(home <= before[i..] + (home + after))
    requires !Occurs(home, after)
    ensures StrReplace(home, public, before + home + after) == before + public + after
  {
    var tail := home + after;
    ReplaceAllCopiesPrefix(before, tail, home, public);
    assert home <= tail && tail[|home|..] == after;
    assert ReplaceAll(tail, home, public) == public + after;
    assert before + home + after == before + tail;
  }

  /** The home URL inside a message is replaced by the configured URL:
      "Visit https://site.test/page" becomes "Visit https://public.test/page". */
  lemma BodyExample(home: string, public: string)
    requires home == "https://site.test" && public == "https://public.test"
    ensures StrReplace(home, public, "Visit " + home + "/page") == "Visit " + public + "/page"
  {
    var before, after := "Visit ", "/page";
    forall i | 0 <= i < |before|
      ensures !(home <= before[i..] + (home + after))
    {
      assert (before[i..] + (home + after))[0] == before[i] != home[0];
    }
    ShortHasNoOccurrence(home, after);
    ReplaceOneOccurrence(before, home, after, public);
  }
}
