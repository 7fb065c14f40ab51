/** The ways to write a repository reference that src/lib/cd-registry.ts promises to take
    for one and the same: plainly, as an scp reference and as a URL, each of them with .git
    at its end or without. */
module CdForms {
  import opened Text
  import opened CdRegistry

  predicate SlugChar(c: char) { 'A' <= c <= 'Z' || 'a' <= c <= 'z' || '0' <= c <= '9' || c in {'.', '_', '-'} }

  /** An owner or a repository name. */
  predicate Slugged(s: string) { s != "" && forall k | 0 <= k < |s| :: SlugChar(s[k]) }

  datatype Form = Plain | Scp(host: string) | Url(scheme: string, host: string)

  predicate FormOk(f: Form) {
    match f
    case Plain => true
    case Scp(host) => host != "" && ':' !in host
    case Url(scheme, host) =>
      scheme != "" && (forall k | 0 <= k < |scheme| :: Letter(scheme[k])) && host != "" && '/' !in host
  }

  function Front(f: Form): string {
    match f
    case Plain => ""
    case Scp(host) => "git@" + host + ":"
    case Url(scheme, host) => scheme + "://" + host + "/"
  }

  function Repo(owner: string, name: string): string { owner + "/" + name }

  lemma {:induction false} IndexIs(s: string, c: char, i: nat, k: nat)
    requires i <= k < |s| && s[k] == c && forall j | i <= j < k :: s[j] != c
    ensures IndexOf(s, c, i) == k
    decreases k - i
  {
    if i < k {
      IndexIs(s, c, i + 1, k);
    }
  }

  lemma {:induction false} LettersAre(s: string, i: nat, k: nat)
    requires i <= k <= |s| && (forall j | i <= j < k :: Letter(s[j])) && (k < |s| ==> !Letter(s[k]))
    ensures Letters(s, i) == k
    decreases k - i
  {
    if i < k {
      LettersAre(s, i + 1, k);
    }
  }

  /** No character of a name is a colon or an at sign, nor blank. */
  lemma RepoChars(owner: string, name: string, tail: string)
    requires Slugged(owner) && Slugged(name) && (tail == "" || Slugged(tail))
    ensures var s := Repo(owner, name) + tail;
            && s != "" && s[0] != '/' && !IsBlank(s[0]) && Last(s) != '/' && !IsBlank(Last(s))
            && forall k | 0 <= k < |s| :: s[k] != ':' && s[k] != '@'
  {
    var s := Repo(owner, name) + tail;
    forall k | 0 <= k < |s| ensures SlugChar(s[k]) || s[k] == '/' {
      assert s[k] == if k < |owner| then owner[k] else if k == |owner| then '/'
                     else if k < |Repo(owner, name)| then name[k - |owner| - 1] else tail[k - |Repo(owner, name)|];
    }
    assert Last(s) == if tail == "" then Last(name) else Last(tail);
    assert s[0] == owner[0];
    assert SlugChar(s[0]) && SlugChar(Last(s));
    SlugsAreSolid(s[0]);
    SlugsAreSolid(Last(s));
  }

  lemma SlugsAreSolid(c: char)
    requires SlugChar(c)
    ensures !IsBlank(c) && c != '/' && c != ':' && c != '@'
  {
  }

  lemma NoColonNoForm(s: string)
    requires forall k | 0 <= k < |s| :: s[k] != ':' && s[k] != '@'
    ensures !ScpForm(s) && !UrlForm(s)
  {
    PrefixAt("git@", s, 3);
    var n := Letters(s, 0);
    PrefixAt("://", s[n..], 0);
  }

  lemma PrefixAt(p: string, s: string, k: nat)
    requires k < |p|
    ensures p <= s ==> k < |s| && s[k] == p[k]
  {
  }

  /** Whatever stands in front goes. */
  lemma FrontGoes(f: Form, s: string)
    requires FormOk(f) && forall k | 0 <= k < |s| :: s[k] != ':' && s[k] != '@'
    ensures StripUrl(StripScp(Front(f) + s)) == s
  {
    NoColonNoForm(s);
    match f {
      case Plain => assert Front(f) + s == s;
      case Scp(host) => ScpGoes(host, s);
      case Url(scheme, host) => UrlGoes(scheme, host, s);
    }
  }

  lemma ScpGoes(host: string, s: string)
    requires FormOk(Scp(host))
    ensures StripScp(Front(Scp(host)) + s) == s
  {
    var all := Front(Scp(host)) + s;
    var k := 4 + |host|;
    assert all[..4] == "git@" && all[4..k] == host && all[k] == ':' && all[k + 1..] == s;
    forall j | 4 <= j < k ensures all[j] != ':' {
      assert all[j] == host[j - 4] && host[j - 4] in host;
    }
    IndexIs(all, ':', 4, k);
  }

  lemma UrlGoes(scheme: string, host: string, s: string)
    requires FormOk(Url(scheme, host))
    ensures var all := Front(Url(scheme, host)) + s; StripScp(all) == all && StripUrl(all) == s
  {
    var all := Front(Url(scheme, host)) + s;
    var n := |scheme|;
    var k := n + 3 + |host|;
    UrlPlaces(scheme, host, s, all);
    hide Front;
    NotScp(scheme, all);
    SchemeEnds(scheme, all);
    HostEnds(host, all, n + 3);
    hide FormOk, Letters, IndexOf, ScpForm;
  }

  lemma SchemeEnds(scheme: string, all: string)
    requires |scheme| < |all| && all[..|scheme|] == scheme && all[|scheme|] == ':'
    requires forall k | 0 <= k < |scheme| :: Letter(scheme[k])
    ensures Letters(all, 0) == |scheme|
  {
    forall j | 0 <= j < |scheme| ensures Letter(all[j]) {
      assert all[j] == scheme[j];
    }
    LettersAre(all, 0, |scheme|);
  }

  lemma HostEnds(host: string, all: string, i: nat)
    requires i + |host| < |all| && all[i..i + |host|] == host && all[i + |host|] == '/' && '/' !in host
    ensures IndexOf(all, '/', i) == i + |host|
  {
    forall j | i <= j < i + |host| ensures all[j] != '/' {
      assert all[j] == all[i..i + |host|][j - i] == host[j - i];
    }
    IndexIs(all, '/', i, i + |host|);
  }

  lemma UrlPlaces(scheme: string, host: string, s: string, all: string)
    requires all == Front(Url(scheme, host)) + s
    ensures var n := |scheme|;
            var k := n + 3 + |host|;
            && n < k < |all| && all[..n] == scheme && all[n] == ':' && "://" <= all[n..]
            && all[n + 3..k] == host && all[k] == '/' && all[k + 1..] == s
  {
    assert all == scheme + ("://" + (host + ("/" + s)));
  }

  lemma NotScp(scheme: string, all: string)
    requires |scheme| < |all| && all[..|scheme|] == scheme && all[|scheme|] == ':'
    requires forall k | 0 <= k < |scheme| :: Letter(scheme[k])
    ensures !ScpForm(all)
  {
    if |scheme| < 4 {
      PrefixAt("git@", all, |scheme|);
    } else {
      assert all[3] == scheme[3];
      PrefixAt("git@", all, 3);
    }
  }

  lemma {:induction false} LowerAppend(a: string, b: string)
    ensures Lower(a + b) == Lower(a) + Lower(b)
  {
    if a == "" {
      assert a + b == b;
    } else {
      assert (a + b)[1..] == a[1..] + b;
      LowerAppend(a[1..], b);
    }
  }

  lemma {:induction false} LowerKeepsSlash(s: string)
    ensures '/' in Lower(s) <==> '/' in s
  {
    if s != "" {
      LowerKeepsSlash(s[1..]);
      assert s == [s[0]] + s[1..];
    }
  }

  /** The tail goes, and nothing else does. */
  lemma TailGoes(owner: string, name: string, tail: string)
    requires Slugged(owner) && Slugged(name)
    requires if tail == "" then !GitSuffix(name) else Lower(tail) == ".git"
    ensures StripGit(Repo(owner, name) + tail) == Repo(owner, name)
  {
    var s := Repo(owner, name) + tail;
    if tail != "" {
      assert |tail| == |Lower(tail)| == 4 && s[|s| - 4..] == tail;
    } else {
      assert s == Repo(owner, name);
      if |name| >= 4 {
        assert s[|s| - 4..] == name[|name| - 4..];
      } else if |s| >= 4 {
        var last := s[|s| - 4..];
        assert last[3 - |name|] == s[|owner|] == '/';
        LowerKeepsSlash(last);
        assert '/' !in ".git";
      }
    }
  }

  lemma GitIsSlug(tail: string)
    requires Lower(tail) == ".git"
    ensures Slugged(tail)
  {
    assert |tail| == 4;
    forall k | 0 <= k < 4 ensures SlugChar(tail[k]) {
      LowerAt(tail, k);
      assert Lower(tail)[k] in {'.', 'g', 'i', 't'};
    }
  }

  lemma {:induction false} LowerAt(s: string, k: nat)
    requires k < |s|
    ensures Lower(s)[k] == LowerChar(s[k])
  {
    if k > 0 {
      LowerAt(s[1..], k - 1);
    }
  }

  lemma TwoParts(owner: string, name: string)
    requires Slugged(owner) && Slugged(name)
    ensures OwnerAndName(Repo(owner, name))
  {
    var parts := [owner, name];
    forall p | p in parts ensures '/' !in p {
      assert forall k | 0 <= k < |p| :: SlugChar(p[k]);
    }
    SplitJoin(parts, '/');
    assert parts[1..] == [name];
    assert Join(parts, '/') == owner + ['/'] + name == Repo(owner, name);
  }

  lemma BareIs(f: Form, owner: string, name: string, tail: string)
    requires FormOk(f) && Slugged(owner) && Slugged(name)
    requires if tail == "" then !GitSuffix(name) else Lower(tail) == ".git"
    ensures Bare(Front(f) + (Repo(owner, name) + tail)) == Repo(owner, name)
  {
    var s := Repo(owner, name) + tail;
    if tail != "" {
      GitIsSlug(tail);
    }
    RepoChars(owner, name, tail);
    RepoChars(owner, name, "");
    assert Repo(owner, name) + "" == Repo(owner, name);
    FrontGoes(f, s);
    TailGoes(owner, name, tail);
    FrontIsSolid(f, s);
    hide FormOk, StripGit, StripUrl, StripScp, IsBlank, Slugged, GitSuffix, Lower, Front;
  }

  lemma FrontIsSolid(f: Form, s: string)
    requires FormOk(f) && s != "" && !IsBlank(s[0]) && !IsBlank(Last(s))
    ensures Trim(Front(f) + s) == Front(f) + s
  {
    var all := Front(f) + s;
    assert Last(all) == Last(s);
    match f {
      case Plain => assert all == s;
      case Scp(host) => assert all[0] == "git@"[0] == 'g';
      case Url(scheme, host) => assert all[0] == scheme[0] && Letter(scheme[0]);
    }
    assert !IsBlank(all[0]);
  }

  /** For every owner and name: written plainly, as an scp reference or as a URL of any host,
      with .git behind it in any case or without, the key is owner/name in lower case. */
  lemma FormsAgree(f: Form, owner: string, name: string, tail: string)
    requires FormOk(f) && Slugged(owner) && Slugged(name)
    requires if tail == "" then !GitSuffix(name) else Lower(tail) == ".git"
    ensures NormalizeRepoKey(Front(f) + (Repo(owner, name) + tail)) == Some(Lower(owner) + "/" + Lower(name))
  {
    BareIs(f, owner, name, tail);
    TwoParts(owner, name);
    hide Bare, Front, Repo, GitSuffix, Slugged, OwnerAndName;
    LowerOfRepo(owner, name);
  }

  lemma LowerOfRepo(owner: string, name: string)
    ensures Lower(Repo(owner, name)) == Lower(owner) + "/" + Lower(name)
  {
    LowerAppend(owner + "/", name);
    LowerAppend(owner, "/");
    assert Lower("/") == "/";
  }
}
