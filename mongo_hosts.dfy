/**
 * The host handling of the adaptor's Mongo(Object host) constructor: the
 * argument becomes a list of server addresses, and the "host" property
 * becomes those addresses written back as "host:port,host:port".
 */
module MongoHosts {
  import opened Wrappers
  import opened JavaLang

  /** The scheme prefix a connection string may carry (MongoClientURI's). */
  const MONGO_CLIENT_URI_PREFIX: string := "mongodb://"
  /** ServerAddress.defaultPort(). */
  const DEFAULT_PORT: int := 27017
  const DEFAULT_HOST: string := "localhost"
  /** The "host" property when no host was given. */
  const UNDEFINED_HOST_STRING: string := "127.0.0.1"

  datatype ServerAddress = ServerAddress(host: string, port: int)

  /** An element of a java.util.List handed to the constructor. */
  datatype ListItem = AnAddress(address: ServerAddress) | NotAnAddress

  /** The constructor's argument, by the branch it takes. */
  datatype HostArg =
    | Undefined
    | AddressList(addresses: seq<ServerAddress>)  // a driver Mongo's getAllAddress()
    | ObjectList(items: seq<ListItem>)            // any List, a script array included, cast unchecked
    | HostText(text: string)                       // anything else, after Context.toString

  /** What the constructor can throw. */
  datatype HostError =
    | PortMissing(entry: string)  // ArrayIndexOutOfBoundsException: "h:" or ":" splits to fewer than two parts
    | BadPort(text: string)       // NumberFormatException from Integer.valueOf
    | ClassCast                   // the rendering loop meets a List element that is not a ServerAddress

  // ------------------------------------------------------------ parsing

  /** One comma-separated entry: "host:port" (parts after a second ':' are ignored) or a bare host. */
  function ParseEntry(entry: string): (r: Result<ServerAddress, HostError>)
    ensures ':' !in entry ==> r == Ok(ServerAddress(entry, DEFAULT_PORT))
    ensures ':' in entry && r.Ok? ==> IsInt32(r.value.port)
  {
    if IndexOf(entry, ':') > -1 then
      var bits := Split(entry, ':');
      if |bits| < 2 then Err(PortMissing(entry))
      else
        var port := ParseInt(bits[1]);
        if port.None? then Err(BadPort(bits[1])) else Ok(ServerAddress(bits[0], port.value))
    else Ok(ServerAddress(entry, DEFAULT_PORT))
  }

  /** The entries parsed in order; the first failing entry's error. */
  function ParseEntries(entries: seq<string>): (r: Result<seq<ServerAddress>, HostError>)
    ensures r.Ok? ==> |r.value| == |entries|
    decreases |entries|
  {
    if entries == [] then Ok([])
    else
      var init := ParseEntries(entries[..|entries| - 1]);
      if init.Err? then init
      else
        var last := ParseEntry(entries[|entries| - 1]);
        if last.Err? then Err(last.error) else Ok(init.value + [last.value])
  }

  function StripPrefix(text: string): string
  {
    if StartsWith(text, MONGO_CLIENT_URI_PREFIX) then text[|MONGO_CLIENT_URI_PREFIX|..] else text
  }

  /** A host string: the URI prefix dropped once, then split on ',' with Java's String.split. */
  function ParseHostText(text: string): Result<seq<ServerAddress>, HostError>
  {
    ParseEntries(Split(StripPrefix(text), ','))
  }

  /**
   * The unchecked cast of a List to List<ServerAddress>, as it shows once the
   * rendering loop reads the elements: the addresses when every element is
   * one, and None (a ClassCastException) as soon as one is not.
   */
  function CastAddresses(items: seq<ListItem>): (r: Option<seq<ServerAddress>>)
    ensures r.None? <==> exists i :: 0 <= i < |items| && items[i].NotAnAddress?
    ensures r.Some? ==> |r.value| == |items|
                        && forall i :: 0 <= i < |items| ==> items[i] == AnAddress(r.value[i])
  {
    if items == [] then Some([])
    else
      var rest := CastAddresses(items[1..]);
      assert forall i :: 1 <= i < |items| ==> items[i] == items[1..][i - 1];
      if items[0].NotAnAddress? || rest.None? then None
      else Some([items[0].address] + rest.value)
  }

  /** The hosts field the constructor sets, or what it throws. */
  function HostsOf(arg: HostArg): (r: Result<seq<ServerAddress>, HostError>)
    ensures arg.Undefined? ==> r == Ok([ServerAddress(DEFAULT_HOST, DEFAULT_PORT)])
    ensures arg.AddressList? ==> r == Ok(arg.addresses)
    ensures arg.ObjectList? ==> (r == Err(ClassCast) <==> exists i :: 0 <= i < |arg.items| && arg.items[i].NotAnAddress?)
  {
    match arg
    case Undefined => Ok([ServerAddress(DEFAULT_HOST, DEFAULT_PORT)])
    case AddressList(addresses) => Ok(addresses)
    case ObjectList(items) =>
      var addresses := CastAddresses(items);
      if addresses.None? then Err(ClassCast) else Ok(addresses.value)
    case HostText(text) => ParseHostText(text)
  }

  lemma {:induction false} ParseEntriesFailsOnPrefix(entries: seq<string>, k: nat)
    requires k <= |entries|
    requires ParseEntries(entries[..k]).Err?
    ensures ParseEntries(entries) == ParseEntries(entries[..k])
    decreases |entries| - k
  {
    if k < |entries| {
      ParseEntriesSnoc(entries, k);
      ParseEntriesFailsOnPrefix(entries, k + 1);
    } else {
      assert entries[..k] == entries;
    }
  }

  /** Parsing one more entry: the earlier error, or this entry's, or the list grown by one. */
  lemma ParseEntriesSnoc(entries: seq<string>, k: nat)
    requires k < |entries|
    ensures var init := ParseEntries(entries[..k]);
      var last := ParseEntry(entries[k]);
      ParseEntries(entries[..k + 1])
        == if init.Err? then init else if last.Err? then Err(last.error) else Ok(init.value + [last.value])
  {
    assert entries[..k + 1][..k] == entries[..k];
  }

  /** The constructor's parsing loop over a host string. */
  method ParseHosts(text: string) returns (r: Result<seq<ServerAddress>, HostError>)
    ensures r == ParseHostText(text)
  {
    var hostsString := text;
    if StartsWith(hostsString, MONGO_CLIENT_URI_PREFIX) {
      hostsString := hostsString[|MONGO_CLIENT_URI_PREFIX|..];
    }
    var hostStrings := Split(hostsString, ',');
    var hosts: seq<ServerAddress> := [];
    for k := 0 to |hostStrings|
      invariant ParseEntries(hostStrings[..k]) == Ok(hosts)
    {
      var entry := ParseEntry(hostStrings[k]);
      ParseEntriesSnoc(hostStrings, k);
      if entry.Err? {
        ParseEntriesFailsOnPrefix(hostStrings, k + 1);
        return Err(entry.error);
      }
      hosts := hosts + [entry.value];
    }
    assert hostStrings[..|hostStrings|] == hostStrings;
    return Ok(hosts);
  }

  // ------------------------------------------------------------ rendering

  /** One address as the StringBuilder writes it: host, ':', the port in decimal. */
  function Render(a: ServerAddress): string
  {
    a.host + ":" + IntToString(a.port)
  }

  function Renders(hosts: seq<ServerAddress>): (rs: seq<string>)
    ensures |rs| == |hosts|
    ensures forall i :: 0 <= i < |hosts| ==> rs[i] == Render(hosts[i])
  {
    seq(|hosts|, i requires 0 <= i < |hosts| => Render(hosts[i]))
  }

  /** The StringBuilder loop: a ',' before every address but the first. */
  function HostStringOf(hosts: seq<ServerAddress>): string
    decreases |hosts|
  {
    if hosts == [] then ""
    else
      var init := HostStringOf(hosts[..|hosts| - 1]);
      (if |init| > 0 then init + "," else "") + Render(hosts[|hosts| - 1])
  }

  /** The "host" property: fixed for an undefined argument, else the addresses written out. */
  function HostProperty(arg: HostArg, hosts: seq<ServerAddress>): string
  {
    if arg.Undefined? then UNDEFINED_HOST_STRING else HostStringOf(hosts)
  }

  /** The constructor's rendering loop. */
  method BuildHostString(hosts: seq<ServerAddress>) returns (s: string)
    ensures s == HostStringOf(hosts)
  {
    s := "";
    for i := 0 to |hosts|
      invariant s == HostStringOf(hosts[..i])
    {
      assert hosts[..i + 1][..i] == hosts[..i];
      if |s| > 0 {
        s := s + ",";
      }
      s := s + Render(hosts[i]);
    }
    assert hosts[..|hosts|] == hosts;
  }

  // ------------------------------------------------------------ properties

  /** An address that survives being written out and read back. */
  predicate WellFormed(a: ServerAddress)
  {
    a.host != "" && ':' !in a.host && ',' !in a.host && IsInt32(a.port)
  }

  lemma {:induction false} JoinSnoc(parts: seq<string>, c: char, last: string)
    requires parts != []
    ensures Join(parts + [last], c) == Join(parts, c) + [c] + last
    decreases |parts|
  {
    if |parts| > 1 {
      assert (parts + [last])[1..] == parts[1..] + [last];
      JoinSnoc(parts[1..], c, last);
    } else {
      assert parts + [last] == [parts[0], last];
    }
  }

  /** The rendered host string is the rendered addresses joined by ','. */
  lemma {:induction false} HostStringIsJoin(hosts: seq<ServerAddress>)
    ensures HostStringOf(hosts) == Join(Renders(hosts), ',')
    decreases |hosts|
  {
    if hosts != [] {
      var init := hosts[..|hosts| - 1];
      HostStringIsJoin(init);
      RendersSnoc(hosts);
      if init != [] {
        JoinSnoc(Renders(init), ',', Render(hosts[|hosts| - 1]));
        assert |Render(init[|init| - 1])| > 0;
        JoinNonEmpty(Renders(init), ',');
      }
    }
  }

  lemma RendersSnoc(hosts: seq<ServerAddress>)
    requires hosts != []
    ensures Renders(hosts) == Renders(hosts[..|hosts| - 1]) + [Render(hosts[|hosts| - 1])]
  {
    var init := hosts[..|hosts| - 1];
    forall i | 0 <= i < |init|
      ensures Renders(hosts)[i] == Renders(init)[i]
    {
      assert hosts[i] == init[i];
    }
  }

  lemma {:induction false} JoinNonEmpty(parts: seq<string>, c: char)
    requires parts != [] && parts[|parts| - 1] != ""
    ensures |Join(parts, c)| > 0
    decreases |parts|
  {
    if |parts| > 1 {
      JoinNonEmpty(parts[1..], c);
    }
  }

  /** The port text holds only digits and '-', so no ':' or ','. */
  lemma PortText(n: int)
    ensures ':' !in IntToString(n) && ',' !in IntToString(n) && IntToString(n) != ""
  {
    IntToStringChars(n);
  }

  /** A well-formed address written out reads back as itself. */
  lemma ParseEntryOfRender(a: ServerAddress)
    requires WellFormed(a)
    ensures ParseEntry(Render(a)) == Ok(a)
  {
    var port := IntToString(a.port);
    PortText(a.port);
    assert Render(a) == Join([a.host, port], ':');
    SplitJoin([a.host, port], ':');
    assert Render(a)[|a.host|] == ':';
    ParseIntToString(a.port);
  }

  lemma {:induction false} ParseEntriesOfRenders(hosts: seq<ServerAddress>)
    requires forall i :: 0 <= i < |hosts| ==> WellFormed(hosts[i])
    ensures ParseEntries(Renders(hosts)) == Ok(hosts)
    decreases |hosts|
  {
    if hosts != [] {
      var n := |hosts| - 1;
      assert hosts[..n] + [hosts[n]] == hosts;
      var rs := Renders(hosts);
      assert rs[..n + 1] == rs;
      RendersSnoc(hosts);
      assert rs[..n] == Renders(hosts[..n]);
      ParseEntriesOfRenders(hosts[..n]);
      ParseEntryOfRender(hosts[n]);
      ParseEntriesSnoc(rs, n);
    }
  }

  /** The host string of well-formed addresses splits on ',' into the rendered addresses. */
  lemma SplitHostString(hosts: seq<ServerAddress>)
    requires hosts != []
    requires forall i :: 0 <= i < |hosts| ==> WellFormed(hosts[i])
    ensures Split(HostStringOf(hosts), ',') == Renders(hosts)
  {
    HostStringIsJoin(hosts);
    RendersHaveNoComma(hosts);
    SplitJoin(Renders(hosts), ',');
  }

  lemma RendersHaveNoComma(hosts: seq<ServerAddress>)
    requires forall i :: 0 <= i < |hosts| ==> WellFormed(hosts[i])
    ensures forall i :: 0 <= i < |hosts| ==> Renders(hosts)[i] != "" && ',' !in Renders(hosts)[i]
  {
    forall i | 0 <= i < |hosts|
      ensures Renders(hosts)[i] != "" && ',' !in Renders(hosts)[i]
    {
      PortText(hosts[i].port);
    }
  }

  /**
   * Round trip of the constructor: the "host" property written for a list
   * of well-formed addresses, given back as a host string (with or without
   * the "mongodb://" prefix), parses to the same list.
   */
  lemma HostStringRoundTrip(hosts: seq<ServerAddress>)
    requires hosts != []
    requires forall i :: 0 <= i < |hosts| ==> WellFormed(hosts[i])
    ensures ParseHostText(MONGO_CLIENT_URI_PREFIX + HostStringOf(hosts)) == Ok(hosts)
    ensures ParseHostText(HostStringOf(hosts)) == Ok(hosts)
  {
    var s := HostStringOf(hosts);
    var full := MONGO_CLIENT_URI_PREFIX + s;
    assert full[|MONGO_CLIENT_URI_PREFIX|..] == s;
    assert StripPrefix(full) == s;
    NoPrefix(hosts);
    assert StripPrefix(s) == s;
    SplitHostString(hosts);
    ParseEntriesOfRenders(hosts);
  }

  lemma {:induction false} JoinStartsWithFirst(parts: seq<string>, c: char)
    requires parts != []
    ensures parts[0] <= Join(parts, c)
  {
    if |parts| > 1 {
      assert Join(parts, c) == parts[0] + ([c] + Join(parts[1..], c));
    }
  }

  /** No text that starts with a well-formed rendered address starts with "mongodb://". */
  lemma RenderedNotPrefixed(a: ServerAddress, s: string)
    requires WellFormed(a) && Render(a) <= s
    ensures !StartsWith(s, MONGO_CLIENT_URI_PREFIX)
  {
    var h := a.host;
    var port := IntToString(a.port);
    IntToStringChars(a.port);
    assert s[|h|] == ':';
    assert s[|h| + 1] == port[0];
    var p := MONGO_CLIENT_URI_PREFIX;
    if |h| < 7 {
      assert p[|h|] != ':';
    } else if |h| == 7 {
      assert p[8] == '/';
    } else {
      assert s[7] == h[7];
      assert p[7] == ':';
    }
  }

  /** A host string of well-formed addresses never starts with "mongodb://". */
  lemma NoPrefix(hosts: seq<ServerAddress>)
    requires hosts != []
    requires forall i :: 0 <= i < |hosts| ==> WellFormed(hosts[i])
    ensures !StartsWith(HostStringOf(hosts), MONGO_CLIENT_URI_PREFIX)
  {
    HostStringIsJoin(hosts);
    JoinStartsWithFirst(Renders(hosts), ',');
    RenderedNotPrefixed(hosts[0], HostStringOf(hosts));
  }

  /** An undefined host means localhost on the default port, shown as "127.0.0.1". */
  lemma UndefinedHost()
    ensures HostsOf(Undefined) == Ok([ServerAddress("localhost", 27017)])
    ensures HostProperty(Undefined, [ServerAddress("localhost", 27017)]) == "127.0.0.1"
  {
  }
}
