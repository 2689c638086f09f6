/**
 * `run_api.main`: scan the command line for `--host=` and `--port=` before starting the web
 * server. Starting the server is not modelled; Python's `int()` is passed in as `toInt`.
 */
module RunApi {
  import opened Wrappers
  import opened Text

  const DefaultHost: string := "127.0.0.1"
  const DefaultPort: int := 8000
  const HostFlag: string := "--host="
  const PortFlag: string := "--port="

  datatype Address = Address(host: string, port: int)

  function OrDefault(o: Option<string>, d: string): string
  {
    if o.Some? then o.value else d
  }

  predicate IsFlag(arg: string)
  {
    HostFlag <= arg || PortFlag <= arg
  }

  /** `arg.split("=")[1]` for an argument that starts with one of the two flags. */
  function FlagValue(arg: string): (v: string)
    requires IsFlag(arg)
    ensures v == Split(arg[|HostFlag|..], '=')[0]
  {
    var name := arg[..|HostFlag| - 1];
    assert name == "--host" || name == "--port";
    assert arg == name + ['='] + arg[|HostFlag|..];
    SplitAround(name, '=', arg[|HostFlag|..]);
    SplitNoSeparator(name, '=');
    Split(arg, '=')[1]
  }

  /** The value is the text after the flag up to the next `=`; so `--host=` gives the empty host. */
  lemma FlagValueExamples(v: string)
    requires '=' !in v
    ensures FlagValue(HostFlag + v) == v && FlagValue(PortFlag + v) == v
    ensures FlagValue(HostFlag + v + "=x") == v
    ensures FlagValue(HostFlag) == ""
  {
    assert (HostFlag + v)[|HostFlag|..] == v;
    assert (PortFlag + v)[|HostFlag|..] == v;
    assert (HostFlag + v + "=x")[|HostFlag|..] == v + ['='] + "x";
    assert HostFlag[|HostFlag|..] == "";
    SplitNoSeparator(v, '=');
    SplitAround(v, '=', "x");
  }

  /** The value of the last argument starting with `flag`, if any. */
  function LastFlagValue(argv: seq<string>, flag: string): Option<string>
    requires flag == HostFlag || flag == PortFlag
  {
    if argv == [] then None
    else if flag <= argv[|argv| - 1] then Some(FlagValue(argv[|argv| - 1]))
    else LastFlagValue(argv[..|argv| - 1], flag)
  }

  /** The value of the first `--port=` argument that `int()` refuses, if any. */
  function FirstBadPort(argv: seq<string>, toInt: string -> Option<int>): Option<string>
  {
    if argv == [] then None
    else if PortFlag <= argv[0] && toInt(FlagValue(argv[0])).None? then Some(FlagValue(argv[0]))
    else FirstBadPort(argv[1..], toInt)
  }

  lemma {:induction false} FirstBadPortAppend(a: seq<string>, b: seq<string>, toInt: string -> Option<int>)
    ensures FirstBadPort(a + b, toInt) == if FirstBadPort(a, toInt).Some? then FirstBadPort(a, toInt) else FirstBadPort(b, toInt)
  {
    if a == [] {
      assert a + b == b;
    } else {
      assert (a + b)[1..] == a[1..] + b;
      FirstBadPortAppend(a[1..], b, toInt);
    }
  }

  /**
   * The host and port `main` passes to the server: the last `--host=` and the last `--port=`
   * win, each falling back on its default; the first `--port=` value that is not an integer
   * raises. Other arguments, `argv[0]` among them, are ignored.
   */
  method ParseServerArgs(argv: seq<string>, toInt: string -> Option<int>) returns (r: Result<Address, string>)
    ensures FirstBadPort(argv, toInt).Some? ==> r == Failure(FirstBadPort(argv, toInt).value)
    ensures FirstBadPort(argv, toInt).None? ==>
      && r.Success?
      && r.value.host == OrDefault(LastFlagValue(argv, HostFlag), DefaultHost)
      && (LastFlagValue(argv, PortFlag).None? ==> r.value.port == DefaultPort)
      && (LastFlagValue(argv, PortFlag).Some? ==> toInt(LastFlagValue(argv, PortFlag).value) == Some(r.value.port))
  {
    var host := DefaultHost;
    var port := DefaultPort;
    for i := 0 to |argv|
      invariant FirstBadPort(argv[..i], toInt).None?
      invariant host == OrDefault(LastFlagValue(argv[..i], HostFlag), DefaultHost)
      invariant LastFlagValue(argv[..i], PortFlag).None? ==> port == DefaultPort
      invariant LastFlagValue(argv[..i], PortFlag).Some? ==> toInt(LastFlagValue(argv[..i], PortFlag).value) == Some(port)
    {
      var arg := argv[i];
      assert argv[..i + 1][..i] == argv[..i] && argv[..i + 1][i] == arg;
      FirstBadPortAppend(argv[..i], [arg], toInt);
      assert argv[..i + 1] == argv[..i] + [arg];
      if HostFlag <= arg {
        assert !(PortFlag <= arg) by { assert arg[2] == 'h'; }
        host := FlagValue(arg);
      } else if PortFlag <= arg {
        match toInt(FlagValue(arg))
        case None =>
          FirstBadPortAppend(argv[..i + 1], argv[i + 1..], toInt);
          assert argv[..i + 1] + argv[i + 1..] == argv;
          return Failure(FlagValue(arg));
        case Some(n) =>
          port := n;
      }
    }
    assert argv[..|argv|] == argv;
    r := Success(Address(host, port));
  }
}
