/**
 * The line classifier of src/log_analyzer/utils/log_utils.py: two first-match
 * searches over the whitespace-separated tokens of one log line.
 */
module LogUtils {
  import opened Options

  /** The five logging levels the analyser recognises, in report column order. */
  datatype Level = DEBUG | INFO | WARNING | ERROR | CRITICAL

  const Levels: seq<Level> := [DEBUG, INFO, WARNING, ERROR, CRITICAL]

  /** The column of a level in `Levels`. */
  function Position(l: Level): (k: nat)
    ensures k < |Levels| && Levels[k] == l
  {
    match l
    case DEBUG => 0
    case INFO => 1
    case WARNING => 2
    case ERROR => 3
    case CRITICAL => 4
  }

  /** The token that names a level in a log line. */
  function Name(l: Level): string {
    match l
    case DEBUG => "DEBUG"
    case INFO => "INFO"
    case WARNING => "WARNING"
    case ERROR => "ERROR"
    case CRITICAL => "CRITICAL"
  }

  /** The level a token names, if it is exactly one of the five level names. */
  function LevelOf(token: string): Option<Level> {
    if token == "DEBUG" then Some(DEBUG)
    else if token == "INFO" then Some(INFO)
    else if token == "WARNING" then Some(WARNING)
    else if token == "ERROR" then Some(ERROR)
    else if token == "CRITICAL" then Some(CRITICAL)
    else None
  }

  /** `LevelOf` reads back exactly the five names: the level set of `fetch_log_level`. */
  lemma LevelOfName(token: string)
    ensures LevelOf(token).Some? ==> Name(LevelOf(token).value) == token
    ensures LevelOf(token).None? <==> forall l: Level :: Name(l) != token
    ensures forall l: Level :: LevelOf(Name(l)) == Some(l)
  {
  }

  /** A token that starts with `/` and ends with `/` (the one-character `"/"` included). */
  predicate IsEndpoint(token: string) {
    |token| > 0 && token[0] == '/' && token[|token| - 1] == '/'
  }

  predicate IsLevelName(token: string) {
    LevelOf(token).Some?
  }

  /** `fetch_endpoint`: the first token that starts and ends with `/`. */
  function FetchEndpoint(tokens: seq<string>): Option<string> {
    if tokens == [] then None
    else if IsEndpoint(tokens[0]) then Some(tokens[0])
    else FetchEndpoint(tokens[1..])
  }

  /** `fetch_log_level`: the level named by the first token that is a level name. */
  function FetchLogLevel(tokens: seq<string>): Option<Level> {
    if tokens == [] then None
    else if IsLevelName(tokens[0]) then LevelOf(tokens[0])
    else FetchLogLevel(tokens[1..])
  }

  /** Token `i` is an endpoint and no token before it is. */
  predicate FirstEndpointAt(tokens: seq<string>, i: nat) {
    i < |tokens| && IsEndpoint(tokens[i]) && forall j :: 0 <= j < i ==> !IsEndpoint(tokens[j])
  }

  /** Token `i` is a level name and no token before it is. */
  predicate FirstLevelAt(tokens: seq<string>, i: nat) {
    i < |tokens| && IsLevelName(tokens[i]) && forall j :: 0 <= j < i ==> !IsLevelName(tokens[j])
  }

  /**
   * `fetch_endpoint` is a left-to-right first-match search: it returns None
   * exactly when no token is an endpoint (an empty list included), and
   * otherwise the token at the first position holding an endpoint.
   */
  lemma {:induction false} FetchEndpointFirst(tokens: seq<string>)
    ensures FetchEndpoint(tokens).None? <==> forall i :: 0 <= i < |tokens| ==> !IsEndpoint(tokens[i])
    ensures forall i: nat :: FirstEndpointAt(tokens, i) ==> FetchEndpoint(tokens) == Some(tokens[i])
  {
    if tokens != [] && !IsEndpoint(tokens[0]) {
      FetchEndpointFirst(tokens[1..]);
      assert forall i :: 1 <= i < |tokens| ==> tokens[i] == tokens[1..][i - 1];
      forall i: nat | FirstEndpointAt(tokens, i)
        ensures FetchEndpoint(tokens) == Some(tokens[i])
      {
        assert FirstEndpointAt(tokens[1..], i - 1);
      }
    }
  }

  /** A returned endpoint is one of the tokens, and is the first endpoint among them. */
  lemma FetchEndpointFound(tokens: seq<string>)
    requires FetchEndpoint(tokens).Some?
    ensures exists i: nat :: FirstEndpointAt(tokens, i) && tokens[i] == FetchEndpoint(tokens).value
  {
    FetchEndpointFirst(tokens);
    var i :| 0 <= i < |tokens| && IsEndpoint(tokens[i]);
    var k := FirstIndex(tokens, i);
    assert FirstEndpointAt(tokens, k);
  }

  /** The first position holding an endpoint, given that position `i` holds one. */
  lemma FirstIndex(tokens: seq<string>, i: nat) returns (k: nat)
    requires i < |tokens| && IsEndpoint(tokens[i])
    ensures FirstEndpointAt(tokens, k)
    decreases i
  {
    if exists j :: 0 <= j < i && IsEndpoint(tokens[j]) {
      var j :| 0 <= j < i && IsEndpoint(tokens[j]);
      k := FirstIndex(tokens, j);
    } else {
      k := i;
    }
  }

  /**
   * `fetch_log_level` is a left-to-right first-match search too: None exactly
   * when no token is one of the five level names, and otherwise the level that
   * the first such token names.
   */
  lemma {:induction false} FetchLogLevelFirst(tokens: seq<string>)
    ensures FetchLogLevel(tokens).None? <==> forall i :: 0 <= i < |tokens| ==> !IsLevelName(tokens[i])
    ensures forall i: nat :: FirstLevelAt(tokens, i) ==> FetchLogLevel(tokens) == LevelOf(tokens[i])
  {
    if tokens != [] && !IsLevelName(tokens[0]) {
      FetchLogLevelFirst(tokens[1..]);
      assert forall i :: 1 <= i < |tokens| ==> tokens[i] == tokens[1..][i - 1];
      forall i: nat | FirstLevelAt(tokens, i)
        ensures FetchLogLevel(tokens) == LevelOf(tokens[i])
      {
        assert FirstLevelAt(tokens[1..], i - 1);
      }
    }
  }

  /** A returned level is named, verbatim, by one of the tokens. */
  lemma {:induction false} FetchLogLevelNamed(tokens: seq<string>)
    requires FetchLogLevel(tokens).Some?
    ensures Name(FetchLogLevel(tokens).value) in tokens
  {
    if !IsLevelName(tokens[0]) {
      FetchLogLevelNamed(tokens[1..]);
    } else {
      LevelOfName(tokens[0]);
    }
  }
}
