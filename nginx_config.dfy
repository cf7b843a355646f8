/** The older single-server configuration record and its validation, which
    defaults the port in place before checking. */
module NginxConfig {
  import opened Common
  import opened NginxConfigServerBlock

  /** A server block must serve files (index and root) or return something. */
  predicate ContentRule(index: string, root: string, ret: int) {
    ret != 0 || (index != "" && root != "")
  }

  /** The checks of the older `validate`, in their order: content, then the
      3xx checks, then the SSL checks. The result holds exactly when all three
      rules hold; a non-3xx `ret` such as 200 or 404 passes unchecked. */
  function LegacyChecks(index: string, root: string, host: string, ret: int, retVal: string,
                        serverType: ServerType, certificate: string, privateKey: string): (ok: bool)
    ensures ok <==> ContentRule(index, root, ret) && RedirectRule(ret, retVal, host)
                    && SslRule(serverType, certificate, privateKey)
  {
    Is3xxRange(ret);
    if (index == "" || root == "") && ret == 0 then false
    else if Is3xx(ret) && !AllowedRedirect(ret) then false
    else if Is3xx(ret) && retVal == "" then false
    else if Is3xx(ret) && Contains(retVal, "$host") && host == "" then false
    else if serverType == HttpServer && (certificate != "" || privateKey != "") then false
    else if serverType != HttpServer && (certificate == "" || privateKey == "") then false
    else true
  }

  /** Port after defaulting: 0 means "not given" and becomes 80. */
  function DefaultPort(port: int): (p: int)
    ensures port == 0 ==> p == 80
    ensures port != 0 ==> p == port
  {
    if port == 0 then 80 else port
  }

  class Config {
    var serverType: ServerType
    /** `short`. */
    var port: int
    var index: string
    var root: string
    var host: string
    /** `short`. */
    var ret: int
    var retVal: string
    var certificate: string
    var privateKey: string

    /** The header's default member values. */
    constructor ()
      ensures serverType == HttpServer && port == 0 && index == "" && root == "" && host == ""
      ensures ret == 0 && retVal == "" && certificate == "" && privateKey == ""
    {
      serverType := HttpServer;
      port := 0;
      index := "";
      root := "";
      host := "";
      ret := 0;
      retVal := "";
      certificate := "";
      privateKey := "";
    }

    function Checks(): bool
      reads this
    {
      LegacyChecks(index, root, host, ret, retVal, serverType, certificate, privateKey)
    }

    /** `Config::validate`: the port is defaulted first, whatever the verdict,
        and is the only field written; the verdict is the checks. */
    method Validate() returns (ok: bool)
      modifies this`port
      ensures port == DefaultPort(old(port))
      ensures ok == Checks()
    {
      if port == 0 {
        port := 80;
      }
      Is3xxRange(ret);
      if (index == "" || root == "") && ret == 0 {
        return false;
      }
      if Is3xx(ret) {
        if !AllowedRedirect(ret) {
          return false;
        }
        if retVal == "" {
          return false;
        } else {
          if Contains(retVal, "$host") && host == "" {
            return false;
          }
        }
      }
      if serverType == HttpServer {
        if certificate != "" || privateKey != "" {
          return false;
        }
      } else {
        if certificate == "" || privateKey == "" {
          return false;
        }
      }
      return true;
    }
  }

  /** The two validators agree on every server that serves files, and differ
      only in the content rule: the older one rejects a server block without
      index or root and without a return directive. */
  lemma ValidatorsAgree(index: string, root: string, host: string, ret: int, retVal: string,
                        serverType: ServerType, certificate: string, privateKey: string)
    ensures LegacyChecks(index, root, host, ret, retVal, serverType, certificate, privateKey)
        <==> ContentRule(index, root, ret) && ServerChecks(ret, retVal, host, serverType, certificate, privateKey)
  {
  }
}
