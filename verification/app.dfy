/** Start-up (`internal/app/app.go`): the provider configurations become
    client configurations and then the client registry; and the root route
    sends the browser to user info or to login.  Configuration loading, the
    HTTP server and logging are not modelled. */
module App {
  import opened Wrappers
  import opened Strs
  import opened Errors
  import opened Pkce
  import opened Decoders
  import opened Clients
  import opened Urls
  import Query

  /** `OIDCClientConfig`. */
  datatype ProviderConfig = ProviderConfig(
    providerName: string,
    clientId: string,
    authUrl: string,
    tokenUrl: string,
    userInfoUrl: string,
    clientSecret: string,
    useState: bool,
    usePKCE: bool,
    stateLength: int,
    pkceMethod: string,
    challengeLength: int,
    decoderName: string)

  /** `Config`; `DisableTLSVerify` is not modelled. */
  datatype AppConfig = AppConfig(domain: string, providers: seq<ProviderConfig>)

  /** The decoders at start-up: `init` registers "oauth0" beside "json". */
  const BootDecoders: Decoders.Registry := Register(InitialRegistry, "oauth0", OAuth0Decoder)

  /** The callback URL a provider is configured with. */
  function RedirectUrlFor(domain: string, providerName: string): string {
    domain + "/oauth/callback?providerName=" + providerName
  }

  /** Start-up knows exactly the decoders "json" and "oauth0". */
  lemma BootDecodersRegistered()
    ensures BootDecoders.Keys == {"json", "oauth0"}
    ensures BootDecoders["json"] == JsonDecoder && BootDecoders["oauth0"] == OAuth0Decoder
  {
  }

  /** The provider name is what follows the fixed callback prefix. */
  lemma ProviderNameOfRedirectUrl(domain: string, providerName: string)
    ensures var u := RedirectUrlFor(domain, providerName); var n := |domain + "/oauth/callback?providerName="|;
      n <= |u| && u[..n] == domain + "/oauth/callback?providerName=" && u[n..] == providerName
  {
  }

  /** Distinct providers get distinct callback URLs on the same domain. */
  lemma RedirectUrlsDistinct(domain: string, a: string, b: string)
    ensures RedirectUrlFor(domain, a) == RedirectUrlFor(domain, b) <==> a == b
  {
    ProviderNameOfRedirectUrl(domain, a);
    ProviderNameOfRedirectUrl(domain, b);
  }

  /** The generator a provider entry asks for. */
  function GeneratorFor(p: ProviderConfig): Construction {
    NewGenerator(p.pkceMethod, p.stateLength, p.challengeLength)
  }

  /** The client configuration of one provider entry. */
  function ConfigFor(domain: string, p: ProviderConfig): ClientConfig {
    ClientConfig(p.clientId, p.authUrl, p.tokenUrl, p.userInfoUrl, RedirectUrlFor(domain, p.providerName),
                 p.clientSecret, p.useState, p.usePKCE, GeneratorFor(p).generator, p.decoderName)
  }

  /** The provider names of the entries. */
  function Names(ps: seq<ProviderConfig>): set<string> {
    set p | p in ps :: p.providerName
  }

  /** Entry `j` is the last one with its name. */
  ghost predicate LastWithName(ps: seq<ProviderConfig>, j: int)
    requires 0 <= j < |ps|
  {
    forall k :: j < k < |ps| ==> ps[k].providerName != ps[j].providerName
  }

  /** The error a generator error would be reported with. */
  function InvalidPkceConfig(e: Error, i: nat, providerName: string): Error {
    Annotated(AddStack(e), "invalid pkce config for oidc provider [" + IntToString(i) + "] \"" + providerName + "\"")
  }

  /** The loop of `buildOidcClientRegistry` from entry `i` on.  A generator
      error would stop it with a wrapped error, but the constructors never
      report one; a later entry replaces an earlier one of the same name. */
  function CollectConfigs(domain: string, ps: seq<ProviderConfig>, i: nat, acc: map<string, ClientConfig>)
    : (r: Result<map<string, ClientConfig>, Error>)
    requires i <= |ps|
    ensures r.Success?
    ensures r.value.Keys == acc.Keys + Names(ps[i..])
    ensures forall j :: i <= j < |ps| && LastWithName(ps, j) ==> r.value[ps[j].providerName] == ConfigFor(domain, ps[j])
    ensures forall n :: n in acc && n !in Names(ps[i..]) ==> r.value[n] == acc[n]
    decreases |ps| - i
  {
    if i == |ps| then
      assert Names(ps[i..]) == {};
      Success(acc)
    else
      var p := ps[i];
      match GeneratorFor(p).err
      case Some(e) => Failure(InvalidPkceConfig(e, i, p.providerName))
      case None =>
        var r := CollectConfigs(domain, ps, i + 1, acc[p.providerName := ConfigFor(domain, p)]);
        NamesStep(ps, i);
        r
  }

  /** The names from entry `i` on are entry `i`'s name and the names after
      it; a last entry's name does not occur after it. */
  lemma NamesStep(ps: seq<ProviderConfig>, i: nat)
    requires i < |ps|
    ensures Names(ps[i..]) == {ps[i].providerName} + Names(ps[i + 1..])
    ensures LastWithName(ps, i) ==> ps[i].providerName !in Names(ps[i + 1..])
    ensures forall j :: i < j < |ps| ==> ps[j].providerName in Names(ps[i + 1..])
  {
    assert ps[i..] == [ps[i]] + ps[i + 1..];
    assert forall x :: x in ps[i..] <==> x == ps[i] || x in ps[i + 1..];
    forall j | i < j < |ps| ensures ps[j].providerName in Names(ps[i + 1..]) {
      assert ps[j] == ps[i + 1..][j - i - 1];
    }
  }

  /** The end of `buildOidcClientRegistry`: no provider is an error,
      otherwise the registry is built all or nothing. */
  function RegistryOf(configs: map<string, ClientConfig>, order: seq<string>, decoders: Decoders.Registry)
    : (r: Result<Clients.Registry, Error>)
    requires forall n :: n in configs <==> n in order
    ensures |configs| == 0 ==> r == Failure(New("no oidc provider is registered"))
    ensures |configs| > 0 ==> r == NewGenericClientRegistry(configs, order, decoders)
  {
    if |configs| == 0 then Failure(New("no oidc provider is registered"))
    else NewGenericClientRegistry(configs, order, decoders)
  }

  /** `buildOidcClientRegistry`.  `order` is the iteration order of the
      configuration map, a listing of the provider names. */
  function BuildOidcClientRegistry(cfg: AppConfig, decoders: Decoders.Registry, order: seq<string>)
    : (r: Result<Clients.Registry, Error>)
    requires forall n :: n in order <==> n in Names(cfg.providers)
    ensures CollectConfigs(cfg.domain, cfg.providers, 0, map[]).Success?
    ensures r == RegistryOf(CollectConfigs(cfg.domain, cfg.providers, 0, map[]).value, order, decoders)
  {
    var collected := CollectConfigs(cfg.domain, cfg.providers, 0, map[]);
    assert cfg.providers[0..] == cfg.providers;
    match collected
    case Failure(e) => Failure(e)
    case Success(configs) => RegistryOf(configs, order, decoders)
  }

  /** What start-up builds: an error when no provider is configured;
      otherwise, all or nothing, one client per provider name, made from
      the last entry with that name. */
  lemma BootstrapRegistry(cfg: AppConfig, decoders: Decoders.Registry, order: seq<string>)
    requires forall n :: n in order <==> n in Names(cfg.providers)
    ensures var r := BuildOidcClientRegistry(cfg, decoders, order);
      && (|cfg.providers| == 0 ==> r == Failure(New("no oidc provider is registered")))
      && (r.Success? ==> r.value.Keys == Names(cfg.providers))
      && (r.Success? ==> forall j :: 0 <= j < |cfg.providers| && LastWithName(cfg.providers, j) ==>
            && NewGenericClient(ConfigFor(cfg.domain, cfg.providers[j]), decoders).Success?
            && r.value[cfg.providers[j].providerName]
               == NewGenericClient(ConfigFor(cfg.domain, cfg.providers[j]), decoders).value)
      && (|cfg.providers| > 0 ==>
            (r.Success? <==> forall j :: 0 <= j < |cfg.providers| && LastWithName(cfg.providers, j) ==>
               NewGenericClient(ConfigFor(cfg.domain, cfg.providers[j]), decoders).Success?))
  {
    var configs := CollectConfigs(cfg.domain, cfg.providers, 0, map[]).value;
    assert cfg.providers[0..] == cfg.providers;
    RegistryFacts(cfg.providers, cfg.domain, configs, order, decoders);
  }

  /** The facts behind `BootstrapRegistry`, over the collected map. */
  lemma RegistryFacts(ps: seq<ProviderConfig>, domain: string, configs: map<string, ClientConfig>,
                      order: seq<string>, decoders: Decoders.Registry)
    requires configs.Keys == Names(ps)
    requires forall j :: 0 <= j < |ps| && LastWithName(ps, j) ==> configs[ps[j].providerName] == ConfigFor(domain, ps[j])
    requires forall n :: n in order <==> n in Names(ps)
    ensures var r := RegistryOf(configs, order, decoders);
      && (|ps| == 0 ==> r == Failure(New("no oidc provider is registered")))
      && (r.Success? ==> r.value.Keys == Names(ps))
      && (r.Success? ==> forall j :: 0 <= j < |ps| && LastWithName(ps, j) ==>
            && NewGenericClient(ConfigFor(domain, ps[j]), decoders).Success?
            && r.value[ps[j].providerName] == NewGenericClient(ConfigFor(domain, ps[j]), decoders).value)
      && (|ps| > 0 ==>
            (r.Success? <==> forall j :: 0 <= j < |ps| && LastWithName(ps, j) ==>
               NewGenericClient(ConfigFor(domain, ps[j]), decoders).Success?))
  {
    if |ps| > 0 {
      assert ps[0].providerName in configs;
      RegistryOfEntries(ps, domain, configs, order, decoders);
    } else {
      assert configs == map[];
    }
  }

  /** The non-empty case of `RegistryFacts`. */
  lemma RegistryOfEntries(ps: seq<ProviderConfig>, domain: string, configs: map<string, ClientConfig>,
                          order: seq<string>, decoders: Decoders.Registry)
    requires |configs| > 0 && configs.Keys == Names(ps)
    requires forall j :: 0 <= j < |ps| && LastWithName(ps, j) ==> configs[ps[j].providerName] == ConfigFor(domain, ps[j])
    requires forall n :: n in order <==> n in configs
    ensures var r := NewGenericClientRegistry(configs, order, decoders);
      && (r.Success? ==> forall j :: 0 <= j < |ps| && LastWithName(ps, j) ==>
            && NewGenericClient(ConfigFor(domain, ps[j]), decoders).Success?
            && r.value[ps[j].providerName] == NewGenericClient(ConfigFor(domain, ps[j]), decoders).value)
      && (r.Success? <==> forall j :: 0 <= j < |ps| && LastWithName(ps, j) ==>
            NewGenericClient(ConfigFor(domain, ps[j]), decoders).Success?)
  {
    LastEntriesCover(ps, configs, domain, decoders);
    var r := NewGenericClientRegistry(configs, order, decoders);
    if r.Success? {
      forall j | 0 <= j < |ps| && LastWithName(ps, j)
        ensures NewGenericClient(ConfigFor(domain, ps[j]), decoders).Success?
        ensures r.value[ps[j].providerName] == NewGenericClient(ConfigFor(domain, ps[j]), decoders).value
      {
        assert ps[j].providerName in configs;
      }
    }
  }

  /** Every name has a last entry, so checking the last entries is checking
      every configuration. */
  lemma LastEntriesCover(ps: seq<ProviderConfig>, configs: map<string, ClientConfig>, domain: string,
                         decoders: Decoders.Registry)
    requires configs.Keys == Names(ps)
    requires forall j :: 0 <= j < |ps| && LastWithName(ps, j) ==> configs[ps[j].providerName] == ConfigFor(domain, ps[j])
    ensures AllBuild(configs, decoders) <==>
      forall j :: 0 <= j < |ps| && LastWithName(ps, j) ==> NewGenericClient(ConfigFor(domain, ps[j]), decoders).Success?
  {
    forall n | n in configs ensures exists j :: 0 <= j < |ps| && LastWithName(ps, j) && ps[j].providerName == n {
      LastEntryExists(ps, n);
    }
  }

  /** A provider whose decoder name is neither "json" nor "oauth0" makes
      start-up fail, unless a later entry of the same name replaces it. */
  lemma UnknownDecoderFailsStartup(cfg: AppConfig, order: seq<string>, j: int)
    requires forall n :: n in order <==> n in Names(cfg.providers)
    requires 0 <= j < |cfg.providers| && LastWithName(cfg.providers, j)
    requires cfg.providers[j].decoderName !in {"json", "oauth0"}
    ensures BuildOidcClientRegistry(cfg, BootDecoders, order).Failure?
  {
    var c := ConfigFor(cfg.domain, cfg.providers[j]);
    BootDecodersRegistered();
    assert c.decoderName !in BootDecoders;
    assert NewGenericClient(c, BootDecoders).Failure?;
    BootstrapRegistry(cfg, BootDecoders, order);
  }

  /** A name of some entry is the name of a last entry. */
  lemma {:induction false} LastEntryExists(ps: seq<ProviderConfig>, n: string)
    requires n in Names(ps)
    ensures exists j :: 0 <= j < |ps| && LastWithName(ps, j) && ps[j].providerName == n
    decreases |ps|
  {
    var p :| p in ps && p.providerName == n;
    var i :| 0 <= i < |ps| && ps[i] == p;
    var last := |ps| - 1;
    if ps[last].providerName == n {
      assert LastWithName(ps, last);
    } else {
      var init := ps[..last];
      assert init[i] == p;
      LastEntryExists(init, n);
      var j :| 0 <= j < |init| && LastWithName(init, j) && init[j].providerName == n;
      assert LastWithName(ps, j);
    }
  }

  // ---------------------------------------------------------------------
  // The root route

  const UserInfoRoute := "/oauth/userinfo"
  const LoginRoute := "/oauth/login?providerName=myoidc"

  /** The root route, given the `sessId` cookie ("" when absent): a
      browser with a session goes to user info, any other to the login of
      the "myoidc" provider. */
  function RootRedirect(sessId: string): (target: string)
    ensures target == UserInfoRoute <==> sessId != ""
    ensures target == LoginRoute <==> sessId == ""
  {
    if sessId != "" then UserInfoRoute else LoginRoute
  }
}
