/** The secret store that picks its backend for every call from the organisation's
    current configuration, caching the clients it builds. */
module VaultStore {
  import Lex
  import opened Wrappers

  const K8S := "k8s"
  const ONE_PASSWORD := "onepassword"
  const VAULT := "vault"
  const DEFAULT_MOUNT := "suparship"

  datatype VaultConfig = VaultConfig(address: string, mount: string, namespace: string, caCert: string)

  /** What a Vault store is built from. */
  datatype Client = Client(token: string, address: string, mount: string, namespace: string, caCert: string)

  datatype Store = Kubernetes | OnePassword(token: string) | HCVault(client: Client)

  /** The organisation's backend type as stored, and which configurations it has. */
  datatype Org = Org(backend: string, onePassword: bool, vault: Option<VaultConfig>)

  /** What one call meets: the organisation as read (None when it cannot be read or
      is missing), the tokens as read, and whether a client can be built. */
  datatype World = World(org: Option<Org>, opToken: Option<string>, opBuilds: bool, hvToken: Option<string>,
                         hvBuilds: bool)

  datatype Problem = OrgUnreadable | Unavailable(backend: string) | Unsupported

  /** Where an item lies: its scope, its tier and, for an app's own, the app. */
  datatype Place = Place(scope: string, tier: string, app: string)

  datatype Mutation =
    | Upsert(place: Place, data: map<string, seq<bv8>>)
    | EnsureItem(place: Place)
    | DeleteKey(place: Place, key: string)
    | CopyItem(scope: string, source: string, target: string)
    | DeleteItem(scope: string, item: string) {

    /** Only a store that can migrate items has these. */
    predicate Migrates() {
      CopyItem? || DeleteItem?
    }
  }

  datatype Reached = Reached(store: Store, mutation: Mutation)

  // ---- which store a call should reach -----------------------------------

  /** White space as strings.TrimSpace takes it. */
  predicate IsSpace(c: char) {
    || c == ' ' || '\t' <= c <= '\r' || c == '\U{85}' || c == '\U{A0}' || c == '\U{1680}'
    || '\U{2000}' <= c <= '\U{200A}' || c == '\U{2028}' || c == '\U{2029}' || c == '\U{202F}' || c == '\U{205F}'
    || c == '\U{3000}'
  }

  function TrimLeft(s: string): string {
    if s != "" && IsSpace(s[0]) then TrimLeft(s[1..]) else s
  }

  function TrimRight(s: string): string {
    if s != "" && IsSpace(s[|s| - 1]) then TrimRight(s[..|s| - 1]) else s
  }

  function EffectiveMount(cfg: VaultConfig): string {
    var mount := TrimRight(TrimLeft(cfg.mount));
    if mount == "" then DEFAULT_MOUNT else mount
  }

  function Effective(org: Org): string {
    if org.backend == "" then K8S else org.backend
  }

  function ClientOf(cfg: VaultConfig, token: string): Client {
    Client(token, cfg.address, EffectiveMount(cfg), cfg.namespace, cfg.caCert)
  }

  /** The store the configuration and token of this call stand for; None when they
      do not stand for any. wired: an organisation store exists; hvWired: the Vault
      backend exists. */
  function Selected(wired: bool, hvWired: bool, w: World): Option<Store> {
    if !wired then Some(Kubernetes)
    else if w.org.None? then None
    else
      var org := w.org.value;
      if Effective(org) == ONE_PASSWORD then
        if org.onePassword && w.opToken.Some? && w.opToken.value != "" then Some(OnePassword(w.opToken.value)) else None
      else if Effective(org) == VAULT then
        if org.vault.Some? && hvWired && org.vault.value.address != "" && w.hvToken.Some? && w.hvToken.value != ""
        then Some(HCVault(ClientOf(org.vault.value, w.hvToken.value))) else None
      else Some(Kubernetes)
  }

  // ---- what a call asks for, in terms of what it read ---------------------

  predicate AllSpace(s: string) {
    forall i :: 0 <= i < |s| ==> IsSpace(s[i])
  }

  /** From i to j without the space around it. */
  predicate TrimmedAt(s: string, i: nat, j: nat) {
    && i <= j <= |s| && AllSpace(s[..i]) && AllSpace(s[j..])
    && (i < j ==> !IsSpace(s[i]) && !IsSpace(s[j - 1]))
  }

  /** The configured mount without the space around it; "suparship" if nothing is left. */
  ghost predicate IsMount(configured: string, mount: string) {
    exists i: nat, j: nat ::
      TrimmedAt(configured, i, j) && mount == if i < j then configured[i..j] else "suparship"
  }

  ghost predicate AsksOnePassword(w: World, token: string) {
    && w.org.Some? && w.org.value.backend == "onepassword" && w.org.value.onePassword
    && w.opToken == Some(token) && token != ""
  }

  ghost predicate AsksVault(hvWired: bool, w: World, c: Client) {
    && hvWired && w.org.Some? && w.org.value.backend == "vault" && w.org.value.vault.Some?
    && var v := w.org.value.vault.value;
       && v.address != "" && c.address == v.address && c.namespace == v.namespace && c.caCert == v.caCert
       && IsMount(v.mount, c.mount)
       && w.hvToken == Some(c.token) && c.token != ""
  }

  ghost predicate AsksKubernetes(w: World) {
    w.org.Some? && w.org.value.backend !in {"onepassword", "vault"}
  }

  lemma {:induction false} TrimLeftAt(s: string, i: nat)
    requires i <= |s| && AllSpace(s[..i]) && (i < |s| ==> !IsSpace(s[i]))
    ensures TrimLeft(s) == s[i..]
  {
    if i == 0 {
      assert s[0..] == s;
    } else {
      assert s[..i][0] == s[0];
      assert s[1..][..i - 1] == s[..i][1..];
      TrimLeftAt(s[1..], i - 1);
    }
  }

  lemma {:induction false} TrimRightAt(s: string, j: nat)
    requires j <= |s| && AllSpace(s[j..]) && (j > 0 ==> !IsSpace(s[j - 1]))
    ensures TrimRight(s) == s[..j]
  {
    if j == |s| {
      assert s[..j] == s;
    } else {
      var n := |s| - 1;
      assert s[j..][n - j] == s[n];
      assert s[..n][j..] == s[j..][..n - j];
      TrimRightAt(s[..n], j);
    }
  }

  lemma {:induction false} SpaceBefore(s: string) returns (i: nat)
    ensures i <= |s| && AllSpace(s[..i]) && (i < |s| ==> !IsSpace(s[i]))
  {
    if s == "" || !IsSpace(s[0]) {
      i := 0;
    } else {
      var k := SpaceBefore(s[1..]);
      i := k + 1;
      assert s[..i] == [s[0]] + s[1..][..k];
    }
  }

  lemma {:induction false} SpaceAfter(s: string) returns (j: nat)
    ensures j <= |s| && AllSpace(s[j..]) && (j > 0 ==> !IsSpace(s[j - 1]))
  {
    if s == "" || !IsSpace(s[|s| - 1]) {
      j := |s|;
    } else {
      j := SpaceAfter(s[..|s| - 1]);
      assert s[j..] == s[..|s| - 1][j..] + [s[|s| - 1]];
    }
  }

  lemma TrimmedIs(s: string, i: nat, j: nat)
    requires TrimmedAt(s, i, j)
    ensures TrimRight(TrimLeft(s)) == s[i..j]
  {
    if i == j {
      assert s == s[..i] + s[j..];
      assert s[..|s|] == s && s[|s|..] == "";
      TrimLeftAt(s, |s|);
    } else {
      TrimLeftAt(s, i);
      assert s[i..][j - i..] == s[j..] && s[i..][..j - i] == s[i..j];
      TrimRightAt(s[i..], j - i);
    }
  }

  lemma TrimmedSomewhere(s: string) returns (i: nat, j: nat)
    ensures TrimmedAt(s, i, j)
  {
    i := SpaceBefore(s);
    if i < |s| {
      var k := SpaceAfter(s[i..]);
      j := i + k;
      assert s[j..] == s[i..][k..];
    } else {
      j := i;
    }
  }

  lemma MountExactly(cfg: VaultConfig, mount: string)
    ensures IsMount(cfg.mount, mount) <==> mount == EffectiveMount(cfg)
  {
    var i, j := TrimmedSomewhere(cfg.mount);
    TrimmedIs(cfg.mount, i, j);
    if x: nat, y: nat :| TrimmedAt(cfg.mount, x, y) && mount == if x < y then cfg.mount[x..y] else "suparship" {
      TrimmedIs(cfg.mount, x, y);
    }
  }

  ghost predicate IsAsked(wired: bool, hvWired: bool, w: World, s: Store) {
    match s
    case OnePassword(token) => wired && AsksOnePassword(w, token)
    case HCVault(c) => wired && AsksVault(hvWired, w, c)
    case Kubernetes => !wired || AsksKubernetes(w)
  }

  /** A configuration stands for the store its own fields ask for. */
  lemma SelectedIsAsked(wired: bool, hvWired: bool, w: World, s: Store)
    ensures Selected(wired, hvWired, w) == Some(s) <==> IsAsked(wired, hvWired, w, s)
  {
    if s.HCVault? && w.org.Some? && w.org.value.vault.Some? { MountExactly(w.org.value.vault.value, s.client.mount); }
  }

  // ---- the cache ---------------------------------------------------------

  function Key(c: Client): string {
    c.token + "\0" + c.address + "\0" + c.mount + "\0" + c.namespace + "\0" + c.caCert
  }

  /** The cached stores with the token and key they are filed under. */
  datatype Cache = Cache(opStore: Option<Store>, opToken: string, hvStore: Option<Store>, hvKey: string)

  /** One call's resolution: the cache it leaves, the store it hands back, and the
      reason when that store is only the fallback. */
  datatype Resolution = Resolution(cache: Cache, store: Store, problem: Option<Problem>)

  function ResolveOnePassword(c: Cache, w: World, token: string): Resolution {
    if c.opStore.Some? && c.opToken == token then Resolution(c, c.opStore.value, None)
    else if !w.opBuilds then Resolution(c, Kubernetes, Some(Unavailable(ONE_PASSWORD)))
    else Resolution(c.(opStore := Some(OnePassword(token)), opToken := token), OnePassword(token), None)
  }

  function ResolveVault(c: Cache, w: World, client: Client): Resolution {
    if c.hvStore.Some? && c.hvKey == Key(client) then Resolution(c, c.hvStore.value, None)
    else if !w.hvBuilds then Resolution(c, Kubernetes, Some(Unavailable(VAULT)))
    else Resolution(c.(hvStore := Some(HCVault(client)), hvKey := Key(client)), HCVault(client), None)
  }

  function Resolve(wired: bool, hvWired: bool, c: Cache, w: World): Resolution {
    match Selected(wired, hvWired, w)
    case Some(OnePassword(token)) => ResolveOnePassword(c, w, token)
    case Some(HCVault(client)) => ResolveVault(c, w, client)
    case Some(Kubernetes) => Resolution(c, Kubernetes, None)
    case None => Resolution(c, Kubernetes,
      Some(if w.org.None? then OrgUnreadable else Unavailable(Effective(w.org.value))))
  }

  /** What a mutating call reaches, if anything. */
  function Landed(r: Resolution): Option<Store> {
    if r.problem.Some? then None else Some(r.store)
  }

  // ---- the store ---------------------------------------------------------

  class DynamicVaultStore {
    const wired: bool
    const hvWired: bool
    var opStore: Option<Store>
    var opToken: string
    var hvStore: Option<Store>
    var hvKey: string
    /** Every mutation that reached a backing store, in order. */
    var log: seq<Reached>

    function Cached(): Cache
      reads this
    {
      Cache(opStore, opToken, hvStore, hvKey)
    }

    constructor (wired: bool, hvWired: bool)
      ensures this.wired == wired && this.hvWired == hvWired
      ensures Cached() == Cache(None, "", None, "") && log == []
    {
      this.wired, this.hvWired := wired, hvWired;
      opStore, opToken, hvStore, hvKey, log := None, "", None, "", [];
    }

    method ActiveOnePassword(w: World) returns (store: Store, problem: Option<Problem>)
      modifies this`opStore, this`opToken
      ensures var r := if w.opToken.Some? && w.opToken.value != ""
                     then ResolveOnePassword(old(Cached()), w, w.opToken.value)
                       else Resolution(old(Cached()), Kubernetes, Some(Unavailable(ONE_PASSWORD)));
              Cached() == r.cache && store == r.store && problem == r.problem
    {
      if w.opToken.None? || w.opToken.value == "" { return Kubernetes, Some(Unavailable(ONE_PASSWORD)); }
      var token := w.opToken.value;
      if opStore.Some? && opToken == token { return opStore.value, None; }
      if !w.opBuilds { return Kubernetes, Some(Unavailable(ONE_PASSWORD)); }
      opStore := Some(OnePassword(token));
      opToken := token;
      return opStore.value, None;
    }

    method ActiveHCVault(cfg: VaultConfig, w: World) returns (store: Store, problem: Option<Problem>)
      modifies this`hvStore, this`hvKey
      ensures var r := if cfg.address != "" && w.hvToken.Some? && w.hvToken.value != ""
                       then ResolveVault(old(Cached()), w, ClientOf(cfg, w.hvToken.value))
                       else Resolution(old(Cached()), Kubernetes, Some(Unavailable(VAULT)));
              Cached() == r.cache && store == r.store && problem == r.problem
    {
      if cfg.address == "" { return Kubernetes, Some(Unavailable(VAULT)); }
      if w.hvToken.None? || w.hvToken.value == "" { return Kubernetes, Some(Unavailable(VAULT)); }
      var client := ClientOf(cfg, w.hvToken.value);
      var key := Key(client);
      if hvStore.Some? && hvKey == key { return hvStore.value, None; }
      if !w.hvBuilds { return Kubernetes, Some(Unavailable(VAULT)); }
      hvStore := Some(HCVault(client));
      hvKey := key;
      return hvStore.value, None;
    }

    method ResolveStore(w: World) returns (store: Store, problem: Option<Problem>)
      modifies this`opStore, this`opToken, this`hvStore, this`hvKey
      ensures var r := Resolve(wired, hvWired, old(Cached()), w);
              Cached() == r.cache && store == r.store && problem == r.problem
    {
      if !wired { return Kubernetes, None; }
      if w.org.None? { return Kubernetes, Some(OrgUnreadable); }
      var org := w.org.value;
      if Effective(org) == ONE_PASSWORD {
        if !org.onePassword { return Kubernetes, Some(Unavailable(ONE_PASSWORD)); }
        store, problem := ActiveOnePassword(w);
      } else if Effective(org) == VAULT {
        if org.vault.None? || !hvWired { return Kubernetes, Some(Unavailable(VAULT)); }
        store, problem := ActiveHCVault(org.vault.value, w);
      } else {
        return Kubernetes, None;
      }
    }

    /** Every mutating operation: refused on a problem, or by a store without item
        migration that is asked for it, and otherwise done on the store as it is. */
    method Mutate(w: World, m: Mutation, migrator: Store -> bool) returns (problem: Option<Problem>)
      modifies this
      ensures var r := Resolve(wired, hvWired, old(Cached()), w);
              Cached() == r.cache
              && (problem.None? <==> Landed(r).Some? && (m.Migrates() ==> migrator(r.store)))
              && (problem.Some? ==> problem == if r.problem.Some? then r.problem else Some(Unsupported))
              && log == old(log) + if problem.None? then [Reached(r.store, m)] else []
      ensures problem == Some(Unsupported) <==>
                var r := Resolve(wired, hvWired, old(Cached()), w);
                r.problem.None? && (m.CopyItem? || m.DeleteItem?) && !migrator(r.store)
      ensures Coherent(old(Cached())) && NulFreeWorld(w) ==>
                Coherent(Cached()) && (problem.None? ==> IsAsked(wired, hvWired, w, log[|log| - 1].store))
    {
      ghost var before := Cached();
      if Coherent(before) && NulFreeWorld(w) { LandsWhereAsked(wired, hvWired, before, w); }
      var store;
      store, problem := ResolveStore(w);
      if problem.Some? { return; }
      if m.Migrates() && !migrator(store) { return Some(Unsupported); }
      log := log + [Reached(store, m)];
    }

    /** A read goes to whatever store came back, the fallback included. */
    method Read(w: World) returns (store: Store)
      modifies this`opStore, this`opToken, this`hvStore, this`hvKey
      ensures var r := Resolve(wired, hvWired, old(Cached()), w); Cached() == r.cache && store == r.store
    {
      var problem;
      store, problem := ResolveStore(w);
    }

    /** The connection test reports a problem instead of testing the fallback. */
    method Probe(w: World) returns (probed: Option<Store>, problem: Option<Problem>)
      modifies this`opStore, this`opToken, this`hvStore, this`hvKey
      ensures var r := Resolve(wired, hvWired, old(Cached()), w);
              Cached() == r.cache && problem == r.problem && probed == Landed(r)
    {
      var store;
      store, problem := ResolveStore(w);
      probed := if problem.Some? then None else Some(store);
    }
  }

  // ---- the cache key -----------------------------------------------------

  predicate NulFree(s: string) {
    '\0' !in s
  }

  predicate NulFreeClient(c: Client) {
    NulFree(c.token) && NulFree(c.address) && NulFree(c.mount) && NulFree(c.namespace) && NulFree(c.caCert)
  }

  /** Without NUL characters, equal keys mean equal inputs. */
  lemma KeyIsInjective(c: Client, d: Client)
    requires NulFreeClient(c) && NulFreeClient(d)
    ensures Key(c) == Key(d) <==> c == d
  {
    if Key(c) == Key(d) {
      var c3, d3 := c.namespace + "\0" + c.caCert, d.namespace + "\0" + d.caCert;
      var c2, d2 := c.mount + "\0" + c3, d.mount + "\0" + d3;
      var c1, d1 := c.address + "\0" + c2, d.address + "\0" + d2;
      assert Key(c) == c.token + "\0" + c1 && Key(d) == d.token + "\0" + d1;
      Lex.FirstField('\0', c.token, c1, d.token, d1);
      Lex.FirstField('\0', c.address, c2, d.address, d2);
      Lex.FirstField('\0', c.mount, c3, d.mount, d3);
      Lex.FirstField('\0', c.namespace, c.caCert, d.namespace, d.caCert);
    }
  }

  function Nuls(s: string): nat {
    if s == "" then 0 else Nuls(s[..|s| - 1]) + if s[|s| - 1] == '\0' then 1 else 0
  }

  lemma {:induction false} NulsConcat(a: string, b: string)
    ensures Nuls(a + b) == Nuls(a) + Nuls(b)
  {
    if b == "" {
      assert a + b == a;
    } else {
      assert (a + b)[..|a + b| - 1] == a + b[..|b| - 1];
      NulsConcat(a, b[..|b| - 1]);
    }
  }

  lemma {:induction false} NoNuls(s: string)
    ensures Nuls(s) == 0 <==> NulFree(s)
  {
    if s == "" {
    } else {
      NoNuls(s[..|s| - 1]);
      assert s == s[..|s| - 1] + [s[|s| - 1]];
    }
  }

  lemma NulsOfKey(c: Client)
    ensures Nuls(Key(c)) == 4 + Nuls(c.token) + Nuls(c.address) + Nuls(c.mount) + Nuls(c.namespace) + Nuls(c.caCert)
  {
    var k1 := c.token + "\0" + c.address;
    var k2 := k1 + "\0" + c.mount;
    var k3 := k2 + "\0" + c.namespace;
    OneNul(c.token, c.address);
    OneNul(k1, c.mount);
    OneNul(k2, c.namespace);
    OneNul(k3, c.caCert);
    assert Key(c) == k3 + "\0" + c.caCert;
  }

  lemma OneNul(a: string, b: string)
    ensures Nuls(a + "\0" + b) == Nuls(a) + 1 + Nuls(b)
  {
    NulsConcat(a + "\0", b);
    NulsConcat(a, "\0");
    assert Nuls("\0") == 1 by { assert "\0"[..0] == ""; }
  }

  /** A client shares its key with another exactly when one of its fields holds a NUL. */
  lemma KeySharedExactly(c: Client)
    ensures (exists d :: d != c && Key(d) == Key(c)) <==> !NulFreeClient(c)
  {
    if !NulFreeClient(c) { var d := SharesKey(c); }
    if NulFreeClient(c) {
      forall d | Key(d) == Key(c) ensures d == c {
        OnlyNulFree(c, d);
        KeyIsInjective(c, d);
      }
    }
  }

  lemma OnlyNulFree(c: Client, d: Client)
    requires NulFreeClient(c) && Key(d) == Key(c)
    ensures NulFreeClient(d)
  {
    NulsOfKey(c);
    NulsOfKey(d);
    NoNulsIn(c);
    NoNulsIn(d);
  }

  lemma NoNulsIn(c: Client)
    ensures NulFreeClient(c) <==>
              Nuls(c.token) + Nuls(c.address) + Nuls(c.mount) + Nuls(c.namespace) + Nuls(c.caCert) == 0
  {
    NoNuls(c.token);
    NoNuls(c.address);
    NoNuls(c.mount);
    NoNuls(c.namespace);
    NoNuls(c.caCert);
  }

  /** The field with the NUL is read as two, and two others as one. */
  lemma SharesKey(c: Client) returns (d: Client)
    requires !NulFreeClient(c)
    ensures d != c && Key(d) == Key(c)
  {
    if !NulFree(c.token) {
      var a, b := SplitAtNul(c.token);
      d := Client(a, b, c.address, c.mount, c.namespace + "\0" + c.caCert);
      Regroup(a, b, c.address);
    } else if !NulFree(c.address) {
      var a, b := SplitAtNul(c.address);
      d := Client(c.token, a, b, c.mount, c.namespace + "\0" + c.caCert);
    } else if !NulFree(c.mount) {
      var a, b := SplitAtNul(c.mount);
      d := Client(c.token, c.address, a, b, c.namespace + "\0" + c.caCert);
    } else if !NulFree(c.namespace) {
      var a, b := SplitAtNul(c.namespace);
      d := Client(c.token + "\0" + c.address, c.mount, a, b, c.caCert);
    } else {
      var a, b := SplitAtNul(c.caCert);
      d := Client(c.token + "\0" + c.address, c.mount, c.namespace, a, b);
    }
    assert Key(d) == Key(c);
  }

  lemma Regroup(a: string, b: string, c: string)
    ensures a + (b + c) == a + b + c
  {
  }

  lemma SplitAtNul(s: string) returns (a: string, b: string)
    requires !NulFree(s)
    ensures s == a + "\0" + b && |a| < |s|
  {
    var i :| 0 <= i < |s| && s[i] == '\0';
    a, b := s[..i], s[i + 1..];
  }

  // ---- where mutations land ----------------------------------------------

  /** Each cached store is filed under what it was built from. */
  ghost predicate Coherent(c: Cache) {
    && (c.opStore.Some? ==> c.opStore.value == OnePassword(c.opToken))
    && (c.hvStore.Some? ==>
         c.hvStore.value.HCVault? && NulFreeClient(c.hvStore.value.client) && c.hvKey == Key(c.hvStore.value.client))
  }

  predicate NulFreeWorld(w: World) {
    && (w.hvToken.Some? ==> NulFree(w.hvToken.value))
    && (w.org.Some? && w.org.value.vault.Some? ==>
          var v := w.org.value.vault.value;
          NulFree(v.address) && NulFree(EffectiveMount(v)) && NulFree(v.namespace) && NulFree(v.caCert))
  }

  /** Whatever is cached, a call that lands, lands in the store its own configuration
      and token stand for; a call that does not has a reason and the fallback. */
  lemma LandsWhereSelected(wired: bool, hvWired: bool, c: Cache, w: World)
    requires Coherent(c) && NulFreeWorld(w)
    ensures var r := Resolve(wired, hvWired, c, w);
            Coherent(r.cache)
            && (Landed(r).Some? ==> Landed(r) == Selected(wired, hvWired, w))
            && (Landed(r).None? ==> r.store == Kubernetes)
  {
    match Selected(wired, hvWired, w)
    case Some(HCVault(client)) =>
      if c.hvStore.Some? { KeyIsInjective(c.hvStore.value.client, client); }
    case _ =>
  }

  lemma LandsWhereAsked(wired: bool, hvWired: bool, c: Cache, w: World)
    requires Coherent(c) && NulFreeWorld(w)
    ensures var r := Resolve(wired, hvWired, c, w);
            && Coherent(r.cache) && (r.problem.None? ==> IsAsked(wired, hvWired, w, r.store))
            && (r.problem.Some? ==>
                 r.problem == Some(if w.org.None? then OrgUnreadable else Unavailable(w.org.value.backend)))
  {
    LandsWhereSelected(wired, hvWired, c, w);
    SelectedIsAsked(wired, hvWired, w, Resolve(wired, hvWired, c, w).store);
  }

  /** A call is refused exactly when nothing is selected, or the client it needs is
      neither cached nor buildable. */
  lemma RefusedExactly(wired: bool, hvWired: bool, c: Cache, w: World)
    ensures Landed(Resolve(wired, hvWired, c, w)).None? <==>
              match Selected(wired, hvWired, w)
              case None => true
              case Some(Kubernetes) => false
              case Some(OnePassword(token)) => !(c.opStore.Some? && c.opToken == token) && !w.opBuilds
              case Some(HCVault(client)) => !(c.hvStore.Some? && c.hvKey == Key(client)) && !w.hvBuilds
  {
  }

  function CacheAfter(wired: bool, hvWired: bool, worlds: seq<World>): Cache {
    if worlds == [] then Cache(None, "", None, "")
    else Resolve(wired, hvWired, CacheAfter(wired, hvWired, worlds[..|worlds| - 1]), worlds[|worlds| - 1]).cache
  }

  lemma {:induction false} AlwaysCoherent(wired: bool, hvWired: bool, worlds: seq<World>)
    requires forall i :: 0 <= i < |worlds| ==> NulFreeWorld(worlds[i])
    ensures Coherent(CacheAfter(wired, hvWired, worlds))
  {
    if worlds == [] {
    } else {
      AlwaysCoherent(wired, hvWired, worlds[..|worlds| - 1]);
      LandsWhereSelected(wired, hvWired, CacheAfter(wired, hvWired, worlds[..|worlds| - 1]), worlds[|worlds| - 1]);
    }
  }

  /** The call after any run of backend switches, token changes, edits and failed
      builds. */
  ghost function LandsAfter(wired: bool, hvWired: bool, run: seq<World>, w: World): Option<Store> {
    Landed(Resolve(wired, hvWired, CacheAfter(wired, hvWired, run), w))
  }

  /** Over any run, a mutation reaches Kubernetes only if no organisation is wired or
      the backend type names neither 1Password nor Vault; otherwise it reaches the
      store built from the token and configuration it read itself, or is refused. */
  lemma RunsFailClosed(wired: bool, hvWired: bool, run: seq<World>, w: World)
    requires forall i :: 0 <= i < |run| ==> NulFreeWorld(run[i])
    requires NulFreeWorld(w)
    ensures LandsAfter(wired, hvWired, run, w) == Some(Kubernetes) <==>
              !wired || (w.org.Some? && Effective(w.org.value) != ONE_PASSWORD && Effective(w.org.value) != VAULT)
    ensures LandsAfter(wired, hvWired, run, w).Some? ==>
              LandsAfter(wired, hvWired, run, w) == Selected(wired, hvWired, w)
  {
    AlwaysCoherent(wired, hvWired, run);
    LandsWhereSelected(wired, hvWired, CacheAfter(wired, hvWired, run), w);
  }

  /** The Vault client, and the 1Password token, of the latest call of a run that
      landed in such a store. */
  ghost function LastVault(wired: bool, hvWired: bool, run: seq<World>): Option<Client> {
    if run == [] then None
    else
      var init := run[..|run| - 1];
      match LandsAfter(wired, hvWired, init, run[|run| - 1])
      case Some(HCVault(c)) => Some(c)
      case _ => LastVault(wired, hvWired, init)
  }

  ghost function LastToken(wired: bool, hvWired: bool, run: seq<World>): Option<string> {
    if run == [] then None
    else
      var init := run[..|run| - 1];
      match LandsAfter(wired, hvWired, init, run[|run| - 1])
      case Some(OnePassword(token)) => Some(token)
      case _ => LastToken(wired, hvWired, init)
  }

  lemma {:induction false} CachedIsLast(wired: bool, hvWired: bool, run: seq<World>)
    requires forall i :: 0 <= i < |run| ==> NulFreeWorld(run[i])
    ensures var c := CacheAfter(wired, hvWired, run);
            && (c.hvStore == match LastVault(wired, hvWired, run) case Some(v) => Some(HCVault(v)) case None => None)
            && (match LastToken(wired, hvWired, run)
                case Some(token) => c.opStore.Some? && c.opToken == token
                case None => c.opStore.None?)
  {
    if run == [] {
    } else {
      var init := run[..|run| - 1];
      CachedIsLast(wired, hvWired, init);
      AlwaysCoherent(wired, hvWired, init);
      LandsWhereSelected(wired, hvWired, CacheAfter(wired, hvWired, init), run[|run| - 1]);
    }
  }

  /** Where a call lands after any run, from what it reads and the calls before it: the
      store its own configuration and token ask for, if the client can be built now or
      is the one the latest call to such a store used; otherwise nowhere. */
  lemma LandsExactly(wired: bool, hvWired: bool, run: seq<World>, w: World, s: Store)
    requires forall i :: 0 <= i < |run| ==> NulFreeWorld(run[i])
    requires NulFreeWorld(w)
    ensures LandsAfter(wired, hvWired, run, w) == Some(s) <==>
              IsAsked(wired, hvWired, w, s)
              && match s
                 case Kubernetes => true
                 case OnePassword(token) => w.opBuilds || LastToken(wired, hvWired, run) == Some(token)
                 case HCVault(c) => w.hvBuilds || LastVault(wired, hvWired, run) == Some(c)
  {
    AlwaysCoherent(wired, hvWired, run);
    CachedIsLast(wired, hvWired, run);
    LandsFrom(wired, hvWired, CacheAfter(wired, hvWired, run), w, s);
    SelectedIsAsked(wired, hvWired, w, s);
  }

  lemma LandsFrom(wired: bool, hvWired: bool, c: Cache, w: World, s: Store)
    requires Coherent(c) && NulFreeWorld(w)
    ensures Landed(Resolve(wired, hvWired, c, w)) == Some(s) <==>
              Selected(wired, hvWired, w) == Some(s) && Reachable(c, w, s)
  {
    LandsWhereSelected(wired, hvWired, c, w);
    if s.HCVault? && Selected(wired, hvWired, w) == Some(s) && c.hvStore.Some? {
      KeyIsInjective(c.hvStore.value.client, s.client);
    }
  }

  predicate Reachable(c: Cache, w: World, s: Store) {
    match s
    case Kubernetes => true
    case OnePassword(token) => w.opBuilds || (c.opStore.Some? && c.opToken == token)
    case HCVault(_) => w.hvBuilds || c.hvStore == Some(s)
  }

  /** "Kubernetes only when it is the effective backend" fails exactly for a type the
      code does not know: that falls through to Kubernetes without an error. */
  lemma KubernetesOnlyWhenSelected(wired: bool, hvWired: bool, run: seq<World>, w: World)
    requires forall i :: 0 <= i < |run| ==> NulFreeWorld(run[i])
    requires NulFreeWorld(w)
    ensures (LandsAfter(wired, hvWired, run, w) == Some(Kubernetes) ==>
              !wired || (w.org.Some? && Effective(w.org.value) == K8S)) <==>
              !(wired && w.org.Some? && Effective(w.org.value) !in {K8S, ONE_PASSWORD, VAULT})
  {
    RunsFailClosed(wired, hvWired, run, w);
  }

  /** A write meant for Vault, spelled so that the code does not know it. */
  lemma UnknownBackendWritesToKubernetes(vault: VaultConfig, token: string)
    ensures var w := World(Some(Org("hcvault", false, Some(vault))), None, false, Some(token), true);
            Landed(Resolve(true, true, Cache(None, "", None, ""), w)) == Some(Kubernetes)
  {
    assert "hcvault" != VAULT && "hcvault" != ONE_PASSWORD;
  }
}
