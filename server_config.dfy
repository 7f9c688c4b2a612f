/** The Python service's server settings (`config/server_config.py`).
    Reading the values from the environment or `.env` is not modelled: a
    configuration is a value, and `Defaults` is the one used when nothing is
    set. */
module PyServerConfig {
  import opened Common

  datatype ServerConfig = ServerConfig(port: int, host: string, corsOrigins: string)

  const Defaults: ServerConfig := ServerConfig(8001, "0.0.0.0", "*")

  /** `get_cors_origins`: `"*"` alone, or the comma-separated pieces each
      stripped of surrounding whitespace. */
  function GetCorsOrigins(c: ServerConfig): (r: seq<string>)
    ensures c.corsOrigins == "*" ==> r == ["*"]
    ensures c.corsOrigins != "*" ==> |r| == |Split(c.corsOrigins, ',')| == Count(c.corsOrigins, ',') + 1
    ensures c.corsOrigins != "*" ==>
              forall i :: 0 <= i < |r| ==> r[i] == PyStrip(Split(c.corsOrigins, ',')[i])
  {
    if c.corsOrigins == "*" then ["*"]
    else
      var pieces := Split(c.corsOrigins, ',');
      SplitCount(c.corsOrigins, ',');
      seq(|pieces|, i requires 0 <= i < |pieces| => PyStrip(pieces[i]))
  }

  /** The pieces, re-joined with commas, give back the setting: splitting
      loses nothing. */
  lemma CorsPiecesCoverSetting(c: ServerConfig)
    ensures Join(Split(c.corsOrigins, ','), ',') == c.corsOrigins
  {
    JoinSplit(c.corsOrigins, ',');
  }

  /** Each origin is comma-free and has no whitespace at either end. */
  lemma CorsOriginsAreStripped(c: ServerConfig, i: nat)
    requires c.corsOrigins != "*" && i < |GetCorsOrigins(c)|
    ensures var o := GetCorsOrigins(c)[i];
            ',' !in o && (o == [] || (!PyIsSpace(o[0]) && !PyIsSpace(o[|o| - 1])))
  {
    var piece := Split(c.corsOrigins, ',')[i];
    StripKeepsOut(piece, ',');
  }

  /** Stripping removes characters, so it cannot introduce one. */
  lemma StripKeepsOut(s: string, c: char)
    requires c !in s
    ensures c !in PyStrip(s)
  {
    var t := TrimStart(s, PyIsSpace);
    assert c !in t;
  }

  lemma DefaultsAllowEveryOrigin()
    ensures Defaults.port == 8001 && Defaults.host == "0.0.0.0"
    ensures GetCorsOrigins(Defaults) == ["*"]
  {
  }
}
