/**
 * What the sources without a signing layer give: Helm repositories, git
 * remotes and plain URLs (host/src/dependencies.effect.ts). What a remote
 * offers and what a cache holds are described by their contents; a fetch
 * succeeds exactly when they say so.
 */
module TrustFetch {
  import opened Common
  import opened Lockfile
  import opened Oci
  import opened OciServed
  import opened Trust
  import opened TrustPins
  import opened TrustRecords

  // ---------------------------------------------------------------- remotes and caches

  ghost predicate IsUnsigned(spec: Spec) {
    spec.Helm? || spec.Git? || spec.Url?
  }

  /** The remote offers `content` under `digest` for what the manifest declares; plain HTTP offers nothing. */
  ghost predicate Offered(w: World, net: Network, spec: Spec, digest: string, content: Files) {
    match spec
    case Helm(repo, chart, requirement) =>
      && (repo, chart, requirement) in net.helm
      && var tarball := net.helm[(repo, chart, requirement)].tarball;
         digest == w.sha256(tarball) && w.unpack(tarball, true) == Some(content)
    case Git(git, tag, rev) =>
      var ref := match tag case Some(t) => Tag(t) case None => Rev(match rev case Some(r) => r case None => "");
      && (git, ref) in net.git
      && digest == "git:" + net.git[(git, ref)].commit && content == net.git[(git, ref)].files
    case Url(url) =>
      && url in net.urls && StartsWith(url, "https://")
      && digest == w.sha256(net.urls[url]) && content == map[w.urlFileName(url) := net.urls[url]]
    case _ => false
  }

  /** The cache has a slot for `digest`, and it holds `files`. */
  ghost predicate InSlot(c: Caches, spec: Spec, digest: string, files: Files) {
    match spec
    case Helm(_, _, _) => digest in c.helm && files == c.helm[digest]
    case Git(_, _, _) => StartsWith(digest, "git:") && digest[4..] in c.git && files == c.git[digest[4..]]
    case Url(_) => digest in c.url && files == c.url[digest]
    case _ => false
  }

  /** The files are what the dependency needs: its chart, or the URL's own file; a commit is always whole. */
  ghost predicate Suffices(w: World, spec: Spec, files: Files) {
    match spec
    case Helm(_, chart, _) => chart + "/Chart.yaml" in files || "Chart.yaml" in files
    case Url(url) => w.urlFileName(url) in files
    case _ => true
  }

  /** The digest a fetch is held to: of git pins only those of a commit. */
  ghost predicate IsHeldTo(spec: Spec, pin: Option<Entry>, digest: string) {
    pin.Some? && pin.value.digest == digest && (spec.Git? ==> StartsWith(digest, "git:"))
  }

  ghost predicate IsCached(w: World, c: Caches, spec: Spec, digest: string) {
    exists files :: InSlot(c, spec, digest, files) && Suffices(w, spec, files)
  }

  /** A slot that exists stays as it is; else the offer fills it. A chart must be there in either case. */
  ghost predicate Fills(w: World, c: Caches, spec: Spec, digest: string, content: Files, files: Files) {
    && (InSlot(c, spec, digest, files) || ((forall held :: !InSlot(c, spec, digest, held)) && files == content))
    && (spec.Helm? ==> Suffices(w, spec, files))
  }

  ghost predicate IsHit(w: World, c: Caches, spec: Spec, pinned: Option<Entry>) {
    exists pin :: IsHeldTo(spec, pinned, pin) && IsCached(w, c, spec, pin)
  }

  /** What is offered under this digest, if it meets the pin, in the slot it ends up in. */
  ghost predicate GivesOffer(w: World, net: Network, c: Caches, req: Request, digest: string, files: Files) {
    var spec := req.dependency.spec;
    && (forall pin :: IsHeldTo(spec, req.pinned, pin) ==> pin == digest)
    && exists content :: Offered(w, net, spec, digest, content) && Fills(w, c, spec, digest, content, files)
  }

  /** What a fetch gives: the pinned slot if it suffices, else, online, what is offered. */
  ghost predicate Gives(w: World, net: Network, c: Caches, req: Request, digest: string, files: Files) {
    var spec := req.dependency.spec;
    if IsHit(w, c, spec, req.pinned) then IsHeldTo(spec, req.pinned, digest) && InSlot(c, spec, digest, files)
    else !req.options.offline && GivesOffer(w, net, c, req, digest, files)
  }

  // ---------------------------------------------------------------- each kind of source

  lemma HelmHit(w: World, c: Caches, req: Request)
    requires req.dependency.spec.Helm?
    ensures var spec, pin := req.dependency.spec, PinOf(req);
            IsHit(w, c, spec, req.pinned) <==> pin.Some? && HasChart(c.helm, pin.value, spec.chart)
  {
    var spec, pin := req.dependency.spec, PinOf(req);
    if pin.Some? && HasChart(c.helm, pin.value, spec.chart) {
      assert IsHeldTo(spec, req.pinned, pin.value);
      assert InSlot(c, spec, pin.value, c.helm[pin.value]) && Suffices(w, spec, c.helm[pin.value]);
    }
  }

  lemma HelmOffer(w: World, net: Network, c: Caches, req: Request, digest: string, files: Files)
    requires req.dependency.spec.Helm? && !IsHit(w, c, req.dependency.spec, req.pinned) && !req.options.offline
    ensures var (f, _) := FetchHelm(w, net, c.helm, req.dependency.spec, PinOf(req), false);
            (f.Ok? && f.value.digest == digest && f.value.files == files) <==>
              GivesOffer(w, net, c, req, digest, files)
  {
    var spec, pin := req.dependency.spec, PinOf(req);
    HelmHit(w, c, req);
    assert (forall p :: IsHeldTo(spec, req.pinned, p) ==> p == digest) <==> (pin.Some? ==> pin.value == digest) by {
      if pin.Some? {
        assert IsHeldTo(spec, req.pinned, pin.value);
      }
    }
    var at := (spec.repo, spec.chart, spec.requirement);
    if at in net.helm && w.unpack(net.helm[at].tarball, true).Some? {
      var content := w.unpack(net.helm[at].tarball, true).value;
      assert Offered(w, net, spec, digest, content) <==> digest == w.sha256(net.helm[at].tarball);
      if digest in c.helm {
        assert InSlot(c, spec, digest, c.helm[digest]);
      }
    }
  }

  lemma HelmGives(w: World, net: Network, c: Caches, req: Request, digest: string, files: Files)
    requires req.dependency.spec.Helm?
    ensures var (f, _) := FetchHelm(w, net, c.helm, req.dependency.spec, PinOf(req), req.options.offline);
            (f.Ok? && f.value.digest == digest && f.value.files == files) <==> Gives(w, net, c, req, digest, files)
  {
    HelmHit(w, c, req);
    if !IsHit(w, c, req.dependency.spec, req.pinned) && !req.options.offline {
      HelmOffer(w, net, c, req, digest, files);
    }
  }

  lemma CommitDigest(digest: string, commit: string)
    ensures digest == "git:" + commit <==> StartsWith(digest, "git:") && digest[4..] == commit
  {
    if StartsWith(digest, "git:") {
      assert digest == digest[..4] + digest[4..];
    }
  }

  lemma GitHit(w: World, c: Caches, req: Request)
    requires req.dependency.spec.Git?
    ensures var commit := GitPin(PinOf(req));
            && (IsHit(w, c, req.dependency.spec, req.pinned) <==> commit.Some? && commit.value in c.git)
            && forall d :: IsHeldTo(req.dependency.spec, req.pinned, d) <==>
                 commit.Some? && d == "git:" + commit.value
  {
    var spec, pin := req.dependency.spec, PinOf(req);
    if pin.Some? && StartsWith(pin.value, "git:") {
      CommitDigest(pin.value, pin.value[4..]);
      assert IsHeldTo(spec, req.pinned, pin.value);
      if pin.value[4..] in c.git {
        assert InSlot(c, spec, pin.value, c.git[pin.value[4..]]);
      }
    }
  }

  lemma GitSlot(w: World, c: Caches, spec: Spec, commit: string, content: Files, files: Files)
    requires spec.Git?
    ensures Fills(w, c, spec, "git:" + commit, content, files) <==> files == Install(c.git, commit, content)[commit]
  {
    CommitDigest("git:" + commit, commit);
    if commit in c.git {
      assert InSlot(c, spec, "git:" + commit, c.git[commit]);
    }
  }

  lemma GitOffer(w: World, net: Network, c: Caches, req: Request, digest: string, files: Files)
    requires req.dependency.spec.Git? && !IsHit(w, c, req.dependency.spec, req.pinned) && !req.options.offline
    ensures var (f, _) := FetchGit(net, c.git, req.dependency.spec, GitPin(PinOf(req)), false);
            (f.Ok? && f.value.digest == digest && f.value.files == files) <==>
              GivesOffer(w, net, c, req, digest, files)
  {
    var spec, commit := req.dependency.spec, GitPin(PinOf(req));
    GitHit(w, c, req);
    assert (forall p :: IsHeldTo(spec, req.pinned, p) ==> p == digest)
      <==> (commit.Some? ==> digest == "git:" + commit.value) by {
      if commit.Some? {
        assert IsHeldTo(spec, req.pinned, "git:" + commit.value);
      }
    }
    var ref := if spec.tag.Some? then Tag(spec.tag.value) else Rev(if spec.rev.Some? then spec.rev.value else "");
    if (spec.git, ref) in net.git {
      var offer := net.git[(spec.git, ref)];
      CommitDigest(digest, offer.commit);
      if commit.Some? {
        CommitDigest(digest, commit.value);
      }
      assert Offered(w, net, spec, digest, offer.files) <==> digest == "git:" + offer.commit;
      GitSlot(w, c, spec, offer.commit, offer.files, files);
    }
  }

  lemma GitGives(w: World, net: Network, c: Caches, req: Request, digest: string, files: Files)
    requires req.dependency.spec.Git?
    ensures var (f, _) := FetchGit(net, c.git, req.dependency.spec, GitPin(PinOf(req)), req.options.offline);
            (f.Ok? && f.value.digest == digest && f.value.files == files) <==> Gives(w, net, c, req, digest, files)
  {
    var commit := GitPin(PinOf(req));
    GitHit(w, c, req);
    if commit.Some? {
      CommitDigest(digest, commit.value);
    }
    if !IsHit(w, c, req.dependency.spec, req.pinned) && !req.options.offline {
      GitOffer(w, net, c, req, digest, files);
    }
  }

  lemma UrlHit(w: World, c: Caches, req: Request)
    requires req.dependency.spec.Url?
    ensures var spec, pin := req.dependency.spec, PinOf(req);
            IsHit(w, c, spec, req.pinned) <==>
              pin.Some? && pin.value in c.url && w.urlFileName(spec.url) in c.url[pin.value]
  {
    var spec, pin := req.dependency.spec, PinOf(req);
    if pin.Some? && pin.value in c.url && w.urlFileName(spec.url) in c.url[pin.value] {
      assert IsHeldTo(spec, req.pinned, pin.value);
      assert InSlot(c, spec, pin.value, c.url[pin.value]) && Suffices(w, spec, c.url[pin.value]);
    }
  }

  lemma UrlOffer(w: World, net: Network, c: Caches, req: Request, digest: string, files: Files)
    requires req.dependency.spec.Url? && !IsHit(w, c, req.dependency.spec, req.pinned) && !req.options.offline
    ensures var (f, _) := FetchUrl(w, net, c.url, req.dependency.spec, PinOf(req), false);
            (f.Ok? && f.value.digest == digest && f.value.files == files) <==>
              GivesOffer(w, net, c, req, digest, files)
  {
    var spec, pin := req.dependency.spec, PinOf(req);
    UrlHit(w, c, req);
    assert (forall p :: IsHeldTo(spec, req.pinned, p) ==> p == digest) <==> (pin.Some? ==> pin.value == digest) by {
      if pin.Some? {
        assert IsHeldTo(spec, req.pinned, pin.value);
      }
    }
    if spec.url in net.urls && StartsWith(spec.url, "https://") {
      var content: Files := map[w.urlFileName(spec.url) := net.urls[spec.url]];
      assert Offered(w, net, spec, digest, content) <==> digest == w.sha256(net.urls[spec.url]);
      if digest in c.url {
        assert InSlot(c, spec, digest, c.url[digest]);
      }
    }
  }

  lemma UrlGives(w: World, net: Network, c: Caches, req: Request, digest: string, files: Files)
    requires req.dependency.spec.Url?
    ensures var (f, _) := FetchUrl(w, net, c.url, req.dependency.spec, PinOf(req), req.options.offline);
            (f.Ok? && f.value.digest == digest && f.value.files == files) <==> Gives(w, net, c, req, digest, files)
  {
    UrlHit(w, c, req);
    if !IsHit(w, c, req.dependency.spec, req.pinned) && !req.options.offline {
      UrlOffer(w, net, c, req, digest, files);
    }
  }

  // ---------------------------------------------------------------- every fetch

  lemma SourceGives(w: World, net: Network, st: State, req: Request, digest: string, files: Files)
    requires IsUnsigned(req.dependency.spec) && Gives(w, net, st.caches, req, digest, files)
    ensures var r := FetchUnsigned(w, net, st, req).result;
            r.Ok? && r.value.digest == digest && r.value.files == Inside(w, req.dependency, files)
  {
    var spec := req.dependency.spec;
    if spec.Helm? {
      HelmGives(w, net, st.caches, req, digest, files);
    } else if spec.Git? {
      GitGives(w, net, st.caches, req, digest, files);
    } else {
      UrlGives(w, net, st.caches, req, digest, files);
    }
  }

  lemma SourceGave(w: World, net: Network, st: State, req: Request) returns (files: Files)
    requires IsUnsigned(req.dependency.spec) && FetchUnsigned(w, net, st, req).result.Ok?
    ensures var r := FetchUnsigned(w, net, st, req).result.value;
            Gives(w, net, st.caches, req, r.digest, files) && r.files == Inside(w, req.dependency, files)
  {
    var spec, c, pin := req.dependency.spec, st.caches, PinOf(req);
    if spec.Helm? {
      var (f, _) := FetchHelm(w, net, c.helm, spec, pin, req.options.offline);
      files := f.value.files;
      HelmGives(w, net, c, req, f.value.digest, files);
    } else if spec.Git? {
      var (f, _) := FetchGit(net, c.git, spec, GitPin(pin), req.options.offline);
      files := f.value.files;
      GitGives(w, net, c, req, f.value.digest, files);
    } else {
      var (f, _) := FetchUrl(w, net, c.url, spec, pin, req.options.offline);
      files := f.value.files;
      UrlGives(w, net, c, req, f.value.digest, files);
    }
  }

  /**
   * A fetch from a Helm repository, a git remote or a URL succeeds with a
   * digest exactly when the pinned slot, the remote's offer and the pin give
   * it, and returns the tree they give; offline, only the slot counts.
   */
  lemma FetchedExactly(w: World, net: Network, st: State, req: Request, digest: string)
    requires IsUnsigned(req.dependency.spec)
    ensures var r := FetchUnsigned(w, net, st, req).result;
            && ((r.Ok? && r.value.digest == digest) <==>
                  exists files :: Gives(w, net, st.caches, req, digest, files))
            && (r.Ok? && r.value.digest == digest ==>
                  exists files :: Gives(w, net, st.caches, req, digest, files)
                                  && r.value.files == Inside(w, req.dependency, files))
  {
    if FetchUnsigned(w, net, st, req).result.Ok? {
      var files := SourceGave(w, net, st, req);
    }
    if files :| Gives(w, net, st.caches, req, digest, files) {
      SourceGives(w, net, st, req, digest, files);
    }
  }

  // ---------------------------------------------------------------- what is recorded of a result

  /** The lock's fields for a dependency as the manifest declares it; `fork` is the path it is replaced by. */
  ghost predicate Describes(w: World, spec: Spec, fork: Option<string>, locked: Record) {
    && locked.replaced == fork
    && match spec
       case Path(path) => locked.source == "path+file://" + path && locked.version == "local"
       case Oci(oci, version) => locked.source == oci && locked.version == version
       case Git(git, tag, rev) =>
         && locked.source == "git+" + w.canonicalGit(git) + "@" + locked.version
         && locked.version == (match tag case Some(t) => t case None =>
              match rev case Some(r) => r case None => if fork.Some? then "HEAD" else "vendored")
       case Helm(repo, chart, _) => locked.source == "helm+" + repo + "#" + chart
       case Url(url) => locked.source == "url+" + url && locked.version == "url"
  }

  lemma FetchIsDescribed(w: World, net: Network, st: State, req: Request)
    requires !req.dependency.spec.Path? && FetchSource(w, net, st, req).result.Ok?
    ensures Describes(w, req.dependency.spec, None, FetchSource(w, net, st, req).result.value.locked)
  {
  }

  /** Whichever way a dependency resolves, what is to be recorded describes it as declared, and its fork. */
  lemma ResultIsDescribed(w: World, net: Network, st: State, req: Request)
    requires ResolveDependency(w, net, st, req).result.Ok?
    ensures Describes(
        w, req.dependency.spec, req.dependency.replace, ResolveDependency(w, net, st, req).result.value.locked)
  {
    var d := req.dependency;
    if !UsesGenerated(w, st, req) && d.replace.None? && !(!d.spec.Helm? && req.name in st.ws.vendor) && !d.spec.Path? {
      FetchIsDescribed(w, net, st, req);
    }
  }

  /** A chart is recorded under the version the repository selected, or the requirement if its slot is pinned. */
  lemma SelectedVersion(w: World, net: Network, st: State, req: Request)
    requires req.dependency.spec.Helm? && FetchUnsigned(w, net, st, req).result.Ok?
    ensures var s := req.dependency.spec;
            var version := FetchUnsigned(w, net, st, req).result.value.locked.version;
            if IsHit(w, st.caches, s, req.pinned) then version == s.requirement
            else (s.repo, s.chart, s.requirement) in net.helm
                 && version == net.helm[(s.repo, s.chart, s.requirement)].version
  {
    HelmHit(w, st.caches, req);
  }

  // ---------------------------------------------------------------- update

  /** What `update` asks a registry for: the tag the manifest declares, whatever the lock says. */
  ghost function Latest(st: State, d: Dependency): PullRequest
    requires d.spec.Oci?
  {
    var key := if st.ws.signing.Key? then Some(st.ws.signing.pem) else None;
    PullRequest(d.spec.oci, d.spec.version, None, false, key, None, d.crds.Some?)
  }

  /** `digest` is what the dependency's source offers now. */
  ghost predicate OfferedNow(w: World, net: Network, st: State, d: Dependency, digest: string) {
    if d.spec.Oci? then exists files :: Serves(w, net.registry, Latest(st, d), digest, files)
    else exists content :: Offered(w, net, d.spec, digest, content)
  }

  lemma Unpinned(w: World, st: State, o: Options, dep: (string, Dependency), key: Option<string>)
    requires o.pins.NoPins?
    ensures RequestFor(w, st, o, dep.0, dep.1, key).pinned.None?
  {
  }

  /**
   * `update` goes by the sources and not by the lock: every dependency it
   * resolves, unless forked, vendored or local, has the digest its source
   * offers at that moment, and a chart its version, whatever the lock or the
   * caches hold.
   */
  lemma UpdateTakesTheOffer(w: World, st: State, net: Network, i: nat)
    requires Resolving(w, st, net, NoPins).result.Ok? && i < |st.ws.dependencies|
    requires var (name, d) := st.ws.dependencies[i];
             d.replace.None? && !d.spec.Path? && (d.spec.Helm? || name !in st.ws.vendor)
    ensures |Resolving(w, st, net, NoPins).result.value| == |st.ws.dependencies|
    ensures OfferedNow(w, net, st, st.ws.dependencies[i].1, Resolving(w, st, net, NoPins).result.value[i].digest)
    ensures var s := st.ws.dependencies[i].1.spec;
            s.Helm? ==>
              && (s.repo, s.chart, s.requirement) in net.helm
              && Resolving(w, st, net, NoPins).result.value[i].locked.version
                   == net.helm[(s.repo, s.chart, s.requirement)].version
  {
    var o, dep := Options(false, true, NoPins, true), st.ws.dependencies[i];
    var key := ActiveKey(st.ws, o);
    var mid := PackageResults(w, net, st, o, i);
    var req := RequestFor(w, st, o, dep.0, dep.1, key);
    Unpinned(w, st, o, dep, key);
    assert ResolveDependency(w, net, mid, req) == FetchSource(w, net, mid, req);
    if dep.1.spec.Oci? {
      assert OciRequest(req) == Latest(st, dep.1);
      FreshPull(w, net.registry, mid.caches.oci, mid.log, OciRequest(req));
    } else {
      var files := SourceGave(w, net, mid, req);
      if dep.1.spec.Helm? {
        SelectedVersion(w, net, mid, req);
      }
    }
  }

  lemma FreshPull(w: World, net: Registry, cache: map<string, Files>, log: set<Evidence>, req: PullRequest)
    requires req.pin.None? && !req.offline && Pull(w, net, cache, log, req).result.Ok?
    ensures exists files :: Serves(w, net, req, Pull(w, net, cache, log, req).result.value.digest, files)
  {
    PullIsValid(w, net, cache, log, req);
    PullExactly(w, net, cache, log, req, Pull(w, net, cache, log, req).result.value.digest);
  }

  // ---------------------------------------------------------------- vendor add

  lemma {:induction false} NoneByPrefix(packages: seq<Entry>, name: string, prefix: string)
    requires forall e :: e in packages ==> e.name != name
    ensures LockedByPrefix(packages, name, prefix).None?
  {
    if packages != [] {
      assert packages[0] in packages;
      NoneByPrefix(packages[1..], name, prefix);
    }
  }

  /** What a workspace, a registry or a remote has of a dependency that `vendor add` takes. */
  ghost predicate Takes(w: World, st: State, net: Network, d: Dependency, digest: string) {
    match d.spec
    case Path(path) => path in st.ws.paths && digest == w.treeDigest(st.ws.paths[path])
    case Oci(_, _) => exists files :: Serves(w, net.registry, Latest(st, d.(crds := None)), digest, files)
    case Helm(_, _, _) => false
    case _ => exists content :: Offered(w, net, d.spec, digest, content)
  }

  /** A request with nothing pinned; only its dependency matters to a fetch. */
  function Plainly(st: State, name: string, d: Dependency): Request {
    Request(name, d, None, None, None, None, Options(false, true, NoPins, true))
  }

  lemma UnpinnedOffer(w: World, net: Network, c: Caches, req: Request, digest: string)
    requires (req.dependency.spec.Git? || req.dependency.spec.Url?) && req.pinned.None? && !req.options.offline
    ensures (exists files :: Gives(w, net, c, req, digest, files)) <==>
            exists content :: Offered(w, net, req.dependency.spec, digest, content)
  {
    var spec := req.dependency.spec;
    if content :| Offered(w, net, spec, digest, content) {
      if held :| InSlot(c, spec, digest, held) {
        assert Fills(w, c, spec, digest, content, held);
        assert Gives(w, net, c, req, digest, held);
      } else {
        assert Fills(w, c, spec, digest, content, content);
        assert Gives(w, net, c, req, digest, content);
      }
    }
  }

  lemma VendorFetchTakes(w: World, st: State, net: Network, name: string, d: Dependency, digest: string)
    requires !d.spec.Oci? && forall e :: e in Loaded(st.lock) ==> e.name != name
    ensures var (r, _) := VendorFetch(w, st, net, name, d.spec);
            (r.Ok? && r.value.digest == digest) <==> Takes(w, st, net, d, digest)
  {
    var c, req := st.caches, Plainly(st, name, d);
    NoneByPrefix(Loaded(st.lock), name, "git+");
    NoneByPrefix(Loaded(st.lock), name, "url+");
    var (r, _) := VendorFetch(w, st, net, name, d.spec);
    if d.spec.Git? {
      UnpinnedOffer(w, net, c, req, digest);
      if r.Ok? {
        GitGives(w, net, c, req, r.value.digest, r.value.files);
      }
      if files :| Gives(w, net, c, req, digest, files) {
        GitGives(w, net, c, req, digest, files);
      }
    } else if d.spec.Url? {
      UnpinnedOffer(w, net, c, req, digest);
      if r.Ok? {
        UrlGives(w, net, c, req, r.value.digest, r.value.files);
      }
      if files :| Gives(w, net, c, req, digest, files) {
        UrlGives(w, net, c, req, digest, files);
      }
    }
  }

  /**
   * `vendor add` of a name the lock does not know takes what its source offers
   * now: it finds a source with a digest exactly when the workspace, the
   * registry, under the configured key, or the remote has it.
   */
  lemma FirstVendorTakesTheOffer(w: World, st: State, net: Network, name: string, d: Dependency, digest: string)
    requires !st.ws.signing.Unreadable? && forall e :: e in Loaded(st.lock) ==> e.name != name
    requires d.spec.Oci? ==> ValidReference(d.spec.oci) && (st.ws.signing.Key? ==> w.keyRef(st.ws.signing.pem).Some?)
    ensures var r := VendorSource(w, st, net, name, d).result;
            (r.Ok? && r.value.digest == digest) <==> Takes(w, st, net, d, digest)
  {
    if d.spec.Oci? {
      NoneByPrefix(Loaded(st.lock), name, "oci://");
      assert VendorRequest(st, name, d) == Latest(st, d.(crds := None));
      PullExactly(w, net.registry, st.caches.oci, st.log, VendorRequest(st, name, d), digest);
    } else {
      VendorFetchTakes(w, st, net, name, d, digest);
    }
  }
}
