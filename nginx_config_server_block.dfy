/** One nginx-style server block as the session code reads it, with its four
    lists of location blocks, and its in-place validation. */
module NginxConfigServerBlock {
  import opened Common

  datatype ServerType = HttpServer | HttpsServer

  /** The location modifier: `=`, `^~`, `~`/`~*`, or none. */
  datatype ModifierType = ExactMatch | PrefixMatchStop | RegexMatch | NoModifier

  /** The only 3xx statuses a return directive may use. */
  predicate AllowedRedirect(ret: int) {
    ret == 301 || ret == 302 || ret == 303 || ret == 307 || ret == 308
  }

  /** The return-directive rule: a 3xx return must use an allowed status, have
      a target, and may only mention `$host` when a host is configured. */
  predicate RedirectRule(ret: int, retVal: string, host: string) {
    300 <= ret <= 399 ==>
      AllowedRedirect(ret) && retVal != "" && (Contains(retVal, "$host") ==> host != "")
  }

  /** The SSL rule: HTTP sets neither certificate nor key, HTTPS sets both. */
  predicate SslRule(serverType: ServerType, certificate: string, privateKey: string) {
    if serverType == HttpServer then certificate == "" && privateKey == ""
    else certificate != "" && privateKey != ""
  }

  /** The server-level checks of `validate`, in their order: the 3xx checks
      (`ret / 100 == 3` in C++ truncating division), then the SSL checks.
      The result holds exactly when both rules hold. */
  function ServerChecks(ret: int, retVal: string, host: string, serverType: ServerType,
                        certificate: string, privateKey: string): (ok: bool)
    ensures ok <==> RedirectRule(ret, retVal, host) && SslRule(serverType, certificate, privateKey)
  {
    Is3xxRange(ret);
    if Is3xx(ret) && !AllowedRedirect(ret) then false
    else if Is3xx(ret) && retVal == "" then false
    else if Is3xx(ret) && Contains(retVal, "$host") && host == "" then false
    else if serverType == HttpServer && (certificate != "" || privateKey != "") then false
    else if serverType != HttpServer && (certificate == "" || privateKey == "") then false
    else true
  }

  /** A location value after inheritance: an empty one takes the server's. */
  function Inherit(own: string, server: string): (r: string)
    ensures own != "" ==> r == own
    ensures own == "" ==> r == server
  {
    if own == "" then server else own
  }

  /** Inheriting twice is inheriting once. */
  lemma InheritIdempotent(own: string, server: string)
    ensures Inherit(Inherit(own, server), server) == Inherit(own, server)
  {
  }

  class LocationBlock {
    var modifier: ModifierType
    var regexCaseSensitive: bool
    var uri: string
    var index: string
    var root: string
    var tryFilesArgs: seq<string>
    var tryFilesFallback: string

    /** The header's default member values. */
    constructor ()
      ensures modifier == NoModifier && !regexCaseSensitive && uri == ""
      ensures index == "" && root == "" && tryFilesArgs == [] && tryFilesFallback == ""
    {
      modifier := NoModifier;
      regexCaseSensitive := false;
      uri := "";
      index := "";
      root := "";
      tryFilesArgs := [];
      tryFilesFallback := "";
    }
  }

  class Config {
    var serverType: ServerType
    /** `unsigned short`. */
    var port: int
    var index: string
    var root: string
    var host: string
    /** `short`. */
    var ret: int
    var retVal: string
    var certificate: string
    var privateKey: string
    /** `locations[4]`: exact, prefix-stop, regex and unmodified locations. */
    var locations: seq<seq<LocationBlock>>

    ghost predicate Valid()
      reads this
    {
      |locations| == 4 && 0 <= port < 0x1_0000 && -0x8000 <= ret < 0x8000
    }

    /** Every location block the four lists point to. */
    ghost function Blocks(): set<LocationBlock>
      reads this
    {
      set i, j | 0 <= i < |locations| && 0 <= j < |locations[i]| :: locations[i][j]
    }

    /** The header's default member values. */
    constructor ()
      ensures Valid()
      ensures serverType == HttpServer && port == 80 && index == "index.html" && root == "html"
      ensures host == "" && ret == 0 && retVal == "" && certificate == "" && privateKey == ""
      ensures locations == [[], [], [], []]
    {
      serverType := HttpServer;
      port := 80;
      index := "index.html";
      root := "html";
      host := "";
      ret := 0;
      retVal := "";
      certificate := "";
      privateKey := "";
      locations := [[], [], [], []];
    }

    function Checks(): bool
      reads this
    {
      ServerChecks(ret, retVal, host, serverType, certificate, privateKey)
    }

    /** `Config::validate`: the checks decide the result; only when they pass
        does every location block inherit an empty root or index from the
        server. The frame lets only those two fields of the blocks change:
        nothing of the server block, and no list, is touched. */
    method Validate() returns (ok: bool)
      requires Valid()
      modifies Blocks()`root, Blocks()`index
      ensures ok == Checks()
      ensures ok ==> forall b :: b in Blocks() ==>
        b.root == Inherit(old(b.root), root) && b.index == Inherit(old(b.index), index)
      ensures !ok ==> unchanged(Blocks())
    {
      Is3xxRange(ret);
      if Is3xx(ret) {
        if !AllowedRedirect(ret) {
          return false;
        }
        if retVal == "" {
          return false;
        } else {
          if Contains(retVal, "$host") && host == "" {
            return false;
          }
        }
      }
      if serverType == HttpServer {
        if certificate != "" || privateKey != "" {
          return false;
        }
      } else {
        if certificate == "" || privateKey == "" {
          return false;
        }
      }

      ghost var done: set<LocationBlock> := {};
      for i := 0 to 4
        invariant done <= Blocks()
        invariant forall i', j' :: 0 <= i' < i && 0 <= j' < |locations[i']| ==> locations[i'][j'] in done
        invariant forall b :: b in done ==>
          b.root == Inherit(old(b.root), root) && b.index == Inherit(old(b.index), index)
        invariant forall b :: b in Blocks() && b !in done ==> b.root == old(b.root) && b.index == old(b.index)
      {
        for j := 0 to |locations[i]|
          invariant done <= Blocks()
          invariant forall i', j' :: 0 <= i' < i && 0 <= j' < |locations[i']| ==> locations[i'][j'] in done
          invariant forall j' :: 0 <= j' < j ==> locations[i][j'] in done
          invariant forall b :: b in done ==>
            b.root == Inherit(old(b.root), root) && b.index == Inherit(old(b.index), index)
          invariant forall b :: b in Blocks() && b !in done ==> b.root == old(b.root) && b.index == old(b.index)
        {
          var location := locations[i][j];
          assert location in Blocks();
          if location.root == "" {
            location.root := root;
          }
          if location.index == "" {
            location.index := index;
          }
          done := done + {location};
        }
      }
      return true;
    }
  }

  /** Validating twice gives the same verdict and the same final state as
      validating once. */
  method ValidateTwice(c: Config) returns (first: bool, second: bool)
    requires c.Valid()
    modifies c.Blocks()`root, c.Blocks()`index
    ensures first == second && second == c.Checks()
    ensures first ==> forall b :: b in c.Blocks() ==>
      b.root == Inherit(old(b.root), c.root) && b.index == Inherit(old(b.index), c.index)
    ensures !first ==> unchanged(c.Blocks())
  {
    first := c.Validate();
    second := c.Validate();
    if first {
      forall b | b in c.Blocks()
        ensures b.root == Inherit(old(b.root), c.root) && b.index == Inherit(old(b.index), c.index)
      {
        InheritIdempotent(old(b.root), c.root);
        InheritIdempotent(old(b.index), c.index);
      }
    }
  }
}
