/** `UrlParser`: scheme, user information, host, port, path, query and fragment of a URL (the components
    of section 3 of RFC 3986).  `user:password@` and `host:port` are told apart late. */
module UrlParser {
  import opened Ascii

  datatype State =
    | Scheme | SlashAfterScheme1 | SlashAfterScheme2 | UsernameOrHostname | Password | Hostname
    | IPV6Hostname | PortOrPassword | Port | Path | Query | Fragment

  datatype Url = Url(scheme: string, username: string, password: string, hostname: string, port: string,
                     path: string, query: string, fragment: string, integerPort: nat)

  const EMPTY_URL := Url("", "", "", "", "", "", "", "", 0)

  /** The parser between two characters: the local variables of the loop and the fields it fills. */
  datatype Scan = Scan(state: State, valid: bool, aborted: bool, userOrHost: string, portOrPassword: string, url: Url)

  const START := Scan(Scheme, true, false, "", "", EMPTY_URL.(path := "/"))

  /** `Aborted` stands for `abort()` and for the failing final assertion. */
  datatype Outcome = Returned(valid: bool, url: Url) | Aborted

  predicate IsSchemeByte(c: char) { IsAlnum(c) || c == '+' || c == '-' || c == '.' }

  predicate IsUnreserved(c: char) { IsAlnum(c) || c == '-' || c == '.' || c == '_' || c == '~' }

  predicate IsHostByte(c: char) { IsUnreserved(c) || c == '%' }

  predicate IsPasswordByte(c: char) { IsAlnum(c) || c == '%' }

  /** The unreserved characters are those of section 2.3 of RFC 3986. */
  lemma UrlClassesSpelled(c: char)
    ensures IsUnreserved(c) <==> IsDigit(c) || IsAlpha(c) || c in "-._~"
    ensures IsHostByte(c) <==> IsDigit(c) || IsAlpha(c) || c in "-._~%"
    ensures IsSchemeByte(c) <==> IsDigit(c) || IsAlpha(c) || c in "+-."
    ensures IsPasswordByte(c) <==> IsDigit(c) || IsAlpha(c) || c == '%'
  {
  }

  /** `uint16_t` from the `int` of `atoi`. */
  function PortNumber(port: string): nat { Atoi(port) % 0x1_0000 }

  function Reject(s: Scan): Scan { s.(valid := false, url := EMPTY_URL) }

  function Step(s: Scan, c: char): Scan {
    var u := s.url;
    match s.state
    case Scheme =>
      if IsSchemeByte(c) then s.(url := u.(scheme := u.scheme + [c]))
      else if c == ':' then s.(state := SlashAfterScheme1)
      else Reject(s)
    case SlashAfterScheme1 =>
      if c == '/' then s.(state := SlashAfterScheme2)
      else if IsAlnum(c) then s.(userOrHost := [c], state := UsernameOrHostname)
      else Reject(s)
    case SlashAfterScheme2 => if c == '/' then s.(state := UsernameOrHostname) else Reject(s)
    case UsernameOrHostname =>
      if IsHostByte(c) then s.(userOrHost := s.userOrHost + [c])
      else if c == ':' then s.(state := PortOrPassword)
      else if c == '@' then s.(state := Hostname, userOrHost := u.username, url := u.(username := s.userOrHost))
      else if c == '/' then s.(state := Path, userOrHost := u.hostname, url := u.(hostname := s.userOrHost))
      else Reject(s)
    case Password =>
      if IsPasswordByte(c) then s.(url := u.(password := u.password + [c]))
      else if c == '@' then s.(state := Hostname)
      else Reject(s)
    case Hostname =>
      if c == '[' && u.hostname == "" then s.(state := IPV6Hostname)
      else if IsHostByte(c) then s.(url := u.(hostname := u.hostname + [c]))
      else if c == ':' then s.(state := Port)
      else if c == '/' then s.(state := Path)
      else Reject(s)
    case IPV6Hostname => s.(aborted := true)
    case PortOrPassword =>
      if IsDigit(c) then s.(portOrPassword := s.portOrPassword + [c])
      else if c == '/' then
        s.(state := Path, userOrHost := u.hostname, portOrPassword := u.port,
           url := u.(hostname := s.userOrHost, port := s.portOrPassword, integerPort := PortNumber(s.portOrPassword)))
      else if IsPasswordByte(c) then
        s.(state := Password, userOrHost := u.username, portOrPassword := u.password,
           url := u.(username := s.userOrHost, password := s.portOrPassword + [c]))
      else Reject(s)
    case Port =>
      if IsDigit(c) then s.(portOrPassword := s.portOrPassword + [c])
      else if c == '/' then
        s.(state := Path, portOrPassword := u.port,
           url := u.(port := s.portOrPassword, integerPort := PortNumber(s.portOrPassword)))
      else Reject(s)
    case Path =>
      if c == '#' then s.(state := Fragment)
      else if c == '?' then s.(state := Query)
      else s.(url := u.(path := u.path + [c]))
    case Query =>
      if c == '#' then s.(state := Fragment)
      else if c == '?' then s
      else s.(url := u.(query := u.query + [c]))
    case Fragment => s.(url := u.(fragment := u.fragment + [c]))
  }

  function Run(s: Scan, str: string): Scan
    decreases |str|
  {
    if str == "" || !s.valid || s.aborted then s else Run(Step(s, str[0]), str[1..])
  }

  function Finish(s: Scan): Outcome {
    if s.aborted || s.portOrPassword != "" then Aborted
    else Returned(s.valid, if s.userOrHost != "" then s.url.(hostname := s.userOrHost) else s.url)
  }

  function Parse(str: string): Outcome { Finish(Run(START, str)) }

  function HttpPort(u: Url): nat {
    if u.port == "" then (if u.scheme == "https" then 443 else 80) else u.integerPort
  }

  class Parser {
    var valid: bool
    var url: Url

    constructor ()
      ensures !valid && url == EMPTY_URL
    {
      valid, url := false, EMPTY_URL;
    }

    /** `aborted` tells that the program ended inside the call. */
    method ParseUrl(str: string) returns (aborted: bool)
      modifies this
      ensures (if aborted then Aborted else Returned(valid, url)) == Parse(str)
    {
      url := EMPTY_URL;
      var state := Scheme;
      var userOrHost, portOrPassword := "", "";
      valid := true;
      url := url.(path := "/", integerPort := 0);
      var i := 0;
      while i < |str| && valid
        invariant i <= |str|
        invariant Run(Scan(state, valid, false, userOrHost, portOrPassword, url), str[i..]) == Run(START, str)
      {
        var c := str[i];
        assert str[i..][1..] == str[i + 1..];
        i := i + 1;
        match state
        case Scheme =>
          if IsAlnum(c) || c == '+' || c == '-' || c == '.' {
            url := url.(scheme := url.scheme + [c]);
          } else if c == ':' {
            state := SlashAfterScheme1;
          } else {
            valid, url := false, EMPTY_URL;
          }
        case SlashAfterScheme1 =>
          if c == '/' {
            state := SlashAfterScheme2;
          } else if IsAlnum(c) {
            userOrHost := [c];
            state := UsernameOrHostname;
          } else {
            valid, url := false, EMPTY_URL;
          }
        case SlashAfterScheme2 =>
          if c == '/' {
            state := UsernameOrHostname;
          } else {
            valid, url := false, EMPTY_URL;
          }
        case UsernameOrHostname =>
          if IsUnreserved(c) || c == '%' {
            userOrHost := userOrHost + [c];
          } else if c == ':' {
            state := PortOrPassword;
          } else if c == '@' {
            state := Hostname;
            userOrHost, url := url.username, url.(username := userOrHost);
          } else if c == '/' {
            state := Path;
            userOrHost, url := url.hostname, url.(hostname := userOrHost);
          } else {
            valid, url := false, EMPTY_URL;
          }
        case Password =>
          if IsAlnum(c) || c == '%' {
            url := url.(password := url.password + [c]);
          } else if c == '@' {
            state := Hostname;
          } else {
            valid, url := false, EMPTY_URL;
          }
        case Hostname =>
          if c == '[' && url.hostname == "" {
            state := IPV6Hostname;
          } else if IsUnreserved(c) || c == '%' {
            url := url.(hostname := url.hostname + [c]);
          } else if c == ':' {
            state := Port;
          } else if c == '/' {
            state := Path;
          } else {
            valid, url := false, EMPTY_URL;
          }
        case IPV6Hostname =>
          return true;
        case PortOrPassword =>
          if IsDigit(c) {
            portOrPassword := portOrPassword + [c];
          } else if c == '/' {
            userOrHost, url := url.hostname, url.(hostname := userOrHost);
            portOrPassword, url := url.port, url.(port := portOrPassword);
            url := url.(integerPort := PortNumber(url.port));
            state := Path;
          } else if IsAlnum(c) || c == '%' {
            userOrHost, url := url.username, url.(username := userOrHost);
            portOrPassword, url := url.password, url.(password := portOrPassword);
            url := url.(password := url.password + [c]);
            state := Password;
          } else {
            valid, url := false, EMPTY_URL;
          }
        case Port =>
          if IsDigit(c) {
            portOrPassword := portOrPassword + [c];
          } else if c == '/' {
            portOrPassword, url := url.port, url.(port := portOrPassword);
            url := url.(integerPort := PortNumber(url.port));
            state := Path;
          } else {
            valid, url := false, EMPTY_URL;
          }
        case Path =>
          if c == '#' {
            state := Fragment;
          } else if c == '?' {
            state := Query;
          } else {
            url := url.(path := url.path + [c]);
          }
        case Query =>
          if c == '#' {
            state := Fragment;
          } else if c == '?' {
            state := Query;
          } else {
            url := url.(query := url.query + [c]);
          }
        case Fragment =>
          url := url.(fragment := url.fragment + [c]);
      }
      if portOrPassword != "" { return true; }
      if userOrHost != "" { url := url.(hostname := userOrHost); }
      aborted := false;
    }

    /** For digits with `integerPort` as the parser sets it: the number they denote, as far as 16 bits hold it. */
    method GetHttpPort() returns (port: nat)
      requires valid
      ensures port == HttpPort(url)
      ensures url.port != "" && All(IsDigit, url.port) && url.integerPort == PortNumber(url.port) ==>
                port == ReadDigits(url.port, 0) % 0x1_0000
    {
      if url.port == "" {
        if url.scheme == "https" { port := 443; } else { port := 80; }
      } else {
        port := url.integerPort;
      }
    }
  }
}
