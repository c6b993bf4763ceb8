/**
 * The coordinator's shared configuration: settings read from the process
 * environment (with their defaults), the check that the required API keys
 * are present, and the base URLs of the two services.
 */
module Config {
  import opened Common
  import opened Strings

  /** The process environment: variable name to value. */
  type Env = map<string, string>

  /** A filesystem path as its list of components; `p + [c]` is Python's `p / c`. */
  type Path = seq<string>

  datatype Settings = Settings(
    openAiApiKey: string,
    nanobananaApiKey: string,
    elevenlabsApiKey: string,
    ragServicePort: int,
    imageGenServicePort: int,
    coordinatorPort: int,
    ragServiceHost: string,
    imageGenServiceHost: string,
    coordinatorHost: string,
    logLevel: string)

  /** `os.getenv(key, default)`: a variable that is set, even to "", wins over the default. */
  function GetEnv(env: Env, key: string, default: string): string
  {
    if key in env then env[key] else default
  }

  predicate IsDigit(c: char)
  {
    '0' <= c <= '9'
  }

  predicate AllDigits(s: string)
  {
    forall k :: 0 <= k < |s| ==> IsDigit(s[k])
  }

  /** The value of a string of decimal digits. */
  function DigitsValue(s: string): nat
    requires AllDigits(s)
  {
    if s == [] then 0 else DigitsValue(s[..|s| - 1]) * 10 + (s[|s| - 1] - '0') as nat
  }

  /**
   * `int(s)`: surrounding whitespace, an optional sign and at least one
   * decimal digit; anything else raises ValueError (here None).
   */
  function ParseInt(s: string): (r: Option<int>)
    ensures r.Some? ==> exists k :: 0 <= k < |s| && IsDigit(s[k])
  {
    var t := Strip(s);
    assert forall k :: 0 <= k < |t| ==> t[k] == s[Lead(s) + k];
    SignedDecimal(t)
  }

  /** What `int()` accepts once the whitespace is stripped: an optional sign, then digits only. */
  function SignedDecimal(t: string): (r: Option<int>)
    ensures r.Some? ==> exists k :: 0 <= k < |t| && IsDigit(t[k])
  {
    if t != [] && (t[0] == '-' || t[0] == '+') then
      var d := t[1..];
      if d != [] && AllDigits(d) then
        assert IsDigit(t[1]);
        Some(if t[0] == '-' then 0 - DigitsValue(d) else DigitsValue(d))
      else None
    else if t != [] && AllDigits(t) then
      assert IsDigit(t[0]);
      Some(DigitsValue(t))
    else None
  }

  lemma {:induction false} NatToStringValue(n: nat)
    ensures AllDigits(NatToString(n)) && DigitsValue(NatToString(n)) == n
    decreases n
  {
    var s := NatToString(n);
    if n >= 10 {
      NatToStringValue(n / 10);
      assert s[..|s| - 1] == NatToString(n / 10);
    }
  }

  /** Printing an integer and reading it back with `int()` gives the integer again. */
  lemma {:induction false} ParseIntOfIntToString(n: int)
    ensures ParseInt(IntToString(n)) == Some(n)
  {
    if n < 0 {
      NegativeRoundTrip(n);
    } else {
      DigitsParse(n, IntToString(n));
    }
  }

  /** The decimal digits of a natural number parse back to it. */
  lemma {:induction false} DigitsParse(n: nat, text: string)
    requires NatToString(n) == text
    ensures ParseInt(text) == Some(n)
  {
    NatToStringValue(n);
    ParseUnpadded(text);
  }

  /** A negative number is printed as a minus sign and its digits, and read back as it is. */
  lemma {:induction false} NegativeRoundTrip(n: int)
    requires n < 0
    ensures ParseInt(IntToString(n)) == Some(n)
  {
    var digits := NatToString(-n);
    assert digits != [] && AllDigits(digits) && DigitsValue(digits) == -n by {
      NatToStringValue(-n);
    }
    SignedDigitsParse(digits);
  }

  /** A minus sign followed by decimal digits is read as the negated value of the digits. */
  lemma SignedDigitsParse(d: string)
    requires d != [] && AllDigits(d)
    ensures ParseInt("-" + d) == Some(0 - DigitsValue(d))
  {
    NegativeDecimal(d);
    ParseUnpadded("-" + d);
  }

  /** Text that starts and ends with no whitespace is read as it is. */
  lemma ParseUnpadded(t: string)
    requires t != [] && !IsSpace(t[0]) && !IsSpace(t[|t| - 1])
    ensures ParseInt(t) == SignedDecimal(t)
  {
    StripUnpadded(t);
  }

  lemma NegativeDecimal(d: string)
    requires d != [] && AllDigits(d)
    ensures var t := "-" + d;
      t[|t| - 1] == d[|d| - 1] && SignedDecimal(t) == Some(0 - DigitsValue(d))
  {
    assert ("-" + d)[1..] == d;
  }

  /**
   * The class attributes of `ServiceConfig`, read once from the environment;
   * None when a port variable is not an integer (the import raises).
   */
  function LoadSettings(env: Env): (r: Option<Settings>)
    // the keys and hosts: the variable when it is set (even to ""), else the default
    ensures r.Some? ==> r.value.openAiApiKey == GetEnv(env, "OPENAI_API_KEY", "")
    ensures r.Some? ==> r.value.nanobananaApiKey == GetEnv(env, "NANOBANANA_API_KEY", "")
    ensures r.Some? ==> r.value.elevenlabsApiKey == GetEnv(env, "ELEVENLABS_API_KEY", "")
    ensures r.Some? ==> r.value.ragServiceHost == GetEnv(env, "RAG_SERVICE_HOST", "127.0.0.1")
    ensures r.Some? ==> r.value.imageGenServiceHost == GetEnv(env, "IMAGE_GEN_SERVICE_HOST", "127.0.0.1")
    ensures r.Some? ==> r.value.coordinatorHost == GetEnv(env, "COORDINATOR_HOST", "0.0.0.0")
    ensures r.Some? ==> r.value.logLevel == GetEnv(env, "LOG_LEVEL", "INFO")
    // the ports: `int()` of the variable, else of the default
    ensures r.Some? ==> Some(r.value.ragServicePort) == ParseInt(GetEnv(env, "RAG_SERVICE_PORT", "8001"))
    ensures r.Some? ==> Some(r.value.imageGenServicePort) == ParseInt(GetEnv(env, "IMAGE_GEN_SERVICE_PORT", "8002"))
    ensures r.Some? ==> Some(r.value.coordinatorPort) == ParseInt(GetEnv(env, "COORDINATOR_PORT", "8000"))
    // the import fails exactly when a port variable is not an integer
    ensures r.None? <==>
      ParseInt(GetEnv(env, "RAG_SERVICE_PORT", "8001")).None?
      || ParseInt(GetEnv(env, "IMAGE_GEN_SERVICE_PORT", "8002")).None?
      || ParseInt(GetEnv(env, "COORDINATOR_PORT", "8000")).None?
  {
    var ragPort := ParseInt(GetEnv(env, "RAG_SERVICE_PORT", "8001"));
    var imagePort := ParseInt(GetEnv(env, "IMAGE_GEN_SERVICE_PORT", "8002"));
    var coordinatorPort := ParseInt(GetEnv(env, "COORDINATOR_PORT", "8000"));
    if ragPort.None? || imagePort.None? || coordinatorPort.None? then None
    else
      Some(Settings(
        GetEnv(env, "OPENAI_API_KEY", ""),
        GetEnv(env, "NANOBANANA_API_KEY", ""),
        GetEnv(env, "ELEVENLABS_API_KEY", ""),
        ragPort.value, imagePort.value, coordinatorPort.value,
        GetEnv(env, "RAG_SERVICE_HOST", "127.0.0.1"),
        GetEnv(env, "IMAGE_GEN_SERVICE_HOST", "127.0.0.1"),
        GetEnv(env, "COORDINATOR_HOST", "0.0.0.0"),
        GetEnv(env, "LOG_LEVEL", "INFO")))
  }

  lemma EightHundred()
    ensures NatToString(800) == "800"
  {
    assert NatToString(8) == "8";
    assert NatToString(80) == "80";
  }

  lemma DefaultRagPortParses()
    ensures ParseInt("8001") == Some(8001)
  {
    EightHundred();
    DigitsParse(8001, "8001");
  }

  lemma DefaultImageGenPortParses()
    ensures ParseInt("8002") == Some(8002)
  {
    EightHundred();
    DigitsParse(8002, "8002");
  }

  lemma DefaultCoordinatorPortParses()
    ensures ParseInt("8000") == Some(8000)
  {
    EightHundred();
    DigitsParse(8000, "8000");
  }

  lemma LoadUnsetEnvironment(ragPort: int, imagePort: int, coordinatorPort: int)
    requires ParseInt("8001") == Some(ragPort)
    requires ParseInt("8002") == Some(imagePort)
    requires ParseInt("8000") == Some(coordinatorPort)
    ensures LoadSettings(map[]) == Some(Settings(
      "", "", "", ragPort, imagePort, coordinatorPort, "127.0.0.1", "127.0.0.1", "0.0.0.0", "INFO"))
  {
  }

  /** With nothing set in the environment every setting takes its default. */
  lemma UnsetEnvironmentDefaults()
    ensures LoadSettings(map[]) == Some(Settings(
      "", "", "", 8001, 8002, 8000, "127.0.0.1", "127.0.0.1", "0.0.0.0", "INFO"))
  {
    DefaultRagPortParses();
    DefaultImageGenPortParses();
    DefaultCoordinatorPortParses();
    LoadUnsetEnvironment(8001, 8002, 8000);
  }

  /** `RAG_LANGCHAIN_PATH`: the RAG service's directory under the repository root. */
  function RagLangchainPath(root: Path): Path
  {
    root + ["RAG-Langchain"]
  }

  /** `f"http://{host}:{port}"`. */
  function HttpUrl(host: string, port: int): (r: string)
    ensures StartsWith(r, "http://")
    ensures r[7..] == host + ":" + IntToString(port)
  {
    "http://" + host + ":" + IntToString(port)
  }

  /**
   * For a host without ':' the URL can be read back: what follows "http://"
   * splits at ':' into the host and the printed port, and the port piece
   * parses to the port.
   */
  lemma HttpUrlDecodes(host: string, port: int)
    requires ':' !in host
    ensures var pieces := SplitOn(HttpUrl(host, port)[7..], ':');
      pieces == [host, IntToString(port)] && ParseInt(pieces[1]) == Some(port)
  {
    var digits := IntToString(port);
    var tail := [':'] + digits;
    PrintedIntHasNoColon(port);
    assert HttpUrl(host, port)[7..] == host + tail;
    SplitOnHead(host, tail, ':');
    assert tail[1..] == digits;
    SplitOnNoSeparator(digits, ':');
    ParseIntOfIntToString(port);
  }

  /** A printed integer is a sign and digits, so it holds no ':'. */
  lemma PrintedIntHasNoColon(n: int)
    ensures forall k :: 0 <= k < |IntToString(n)| ==> IntToString(n)[k] != ':'
  {
    if n < 0 {
      var digits := NatToString(-n);
      assert forall k :: 1 <= k < |IntToString(n)| ==> IntToString(n)[k] == digits[k - 1];
    }
  }

  /** Different hosts (without ':') or different ports give different URLs. */
  lemma HttpUrlInjective(host1: string, port1: int, host2: string, port2: int)
    requires ':' !in host1 && ':' !in host2
    ensures HttpUrl(host1, port1) == HttpUrl(host2, port2) <==> host1 == host2 && port1 == port2
  {
    HttpUrlDecodes(host1, port1);
    HttpUrlDecodes(host2, port2);
  }

  /** `ServiceConfig.get_service_urls()`. */
  function ServiceUrls(s: Settings): (r: map<string, string>)
    ensures r.Keys == {"rag", "image_gen"}
    ensures r["rag"] == HttpUrl(s.ragServiceHost, s.ragServicePort)
    ensures r["image_gen"] == HttpUrl(s.imageGenServiceHost, s.imageGenServicePort)
  {
    map["rag" := HttpUrl(s.ragServiceHost, s.ragServicePort),
        "image_gen" := HttpUrl(s.imageGenServiceHost, s.imageGenServicePort)]
  }

  /**
   * Each of the two URLs reads back as its own service's host and port, so
   * (for hosts without ':') the two services share a URL exactly when they
   * share host and port.
   */
  lemma ServiceUrlsDecode(s: Settings)
    requires ':' !in s.ragServiceHost && ':' !in s.imageGenServiceHost
    ensures var urls := ServiceUrls(s);
      && urls.Keys == {"rag", "image_gen"}
      && SplitOn(urls["rag"][7..], ':') == [s.ragServiceHost, IntToString(s.ragServicePort)]
      && SplitOn(urls["image_gen"][7..], ':') == [s.imageGenServiceHost, IntToString(s.imageGenServicePort)]
      && (urls["rag"] == urls["image_gen"] <==>
            s.ragServiceHost == s.imageGenServiceHost && s.ragServicePort == s.imageGenServicePort)
  {
    HttpUrlDecodes(s.ragServiceHost, s.ragServicePort);
    HttpUrlDecodes(s.imageGenServiceHost, s.imageGenServicePort);
    HttpUrlInjective(s.ragServiceHost, s.ragServicePort, s.imageGenServiceHost, s.imageGenServicePort);
  }

  const ErrorPrefix := "Configuration errors: "
  const OpenAiKeyMissing := "OPENAI_API_KEY not set"
  const NanobananaKeyMissing := "NANOBANANA_API_KEY not set"

  /**
   * `ServiceConfig.validate()`: collects one message per missing required key,
   * OPENAI first, and raises ValueError (here Err) when there is any.
   * Only the two required keys decide the outcome.
   */
  method Validate(s: Settings) returns (r: Result<bool, string>)
    ensures r.Ok? <==> s.openAiApiKey != "" && s.nanobananaApiKey != ""
    ensures r.Ok? ==> r.value
    ensures s.openAiApiKey == "" && s.nanobananaApiKey != "" ==>
      r == Err(ErrorPrefix + OpenAiKeyMissing)
    ensures s.openAiApiKey != "" && s.nanobananaApiKey == "" ==>
      r == Err(ErrorPrefix + NanobananaKeyMissing)
    ensures s.openAiApiKey == "" && s.nanobananaApiKey == "" ==>
      r == Err(ErrorPrefix + OpenAiKeyMissing + ", " + NanobananaKeyMissing)
  {
    var errors: seq<string> := [];
    if s.openAiApiKey == "" {
      errors := errors + [OpenAiKeyMissing];
    }
    if s.nanobananaApiKey == "" {
      errors := errors + [NanobananaKeyMissing];
    }
    if errors != [] {
      if s.openAiApiKey == "" && s.nanobananaApiKey == "" {
        assert errors == [OpenAiKeyMissing, NanobananaKeyMissing];
        assert errors[1..] == [NanobananaKeyMissing];
        assert Join(errors, ", ") == OpenAiKeyMissing + ", " + NanobananaKeyMissing;
        assert ErrorPrefix + Join(errors, ", ") == ErrorPrefix + OpenAiKeyMissing + ", " + NanobananaKeyMissing;
      }
      return Err(ErrorPrefix + Join(errors, ", "));
    }
    return Ok(true);
  }
}
