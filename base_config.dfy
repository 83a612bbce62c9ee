/** The stand-alone `BaseConfig` service: two endpoints that echo an
    optional text, with "none" standing in for a missing one. */
module BaseConfig {
  import opened Wrappers

  const EchoPrefix: string := "echo: "
  const ParamPrefix: string := "param: "

  /** `text ?: "none"`. */
  function OrNone(text: Option<string>): (r: string)
    ensures text.Some? ==> r == text.value
    ensures text.None? ==> r == "none"
  {
    text.GetOr("none")
  }

  /** `echo(text)`, `text` being the optional path variable. */
  function Echo(text: Option<string>): (r: string)
    ensures |r| >= |EchoPrefix| && r[..|EchoPrefix|] == EchoPrefix
    ensures r[|EchoPrefix|..] == OrNone(text)
  {
    var r := EchoPrefix + OrNone(text);
    assert r[|EchoPrefix|..] == OrNone(text);
    r
  }

  /** `param(text)`, `text` being the optional request parameter. */
  function Param(text: Option<string>): (r: string)
    ensures |r| >= |ParamPrefix| && r[..|ParamPrefix|] == ParamPrefix
    ensures r[|ParamPrefix|..] == OrNone(text)
  {
    var r := ParamPrefix + OrNone(text);
    assert r[|ParamPrefix|..] == OrNone(text);
    r
  }

  /** A missing text and the text "none" give the same echo. */
  lemma EchoMissingIsNone()
    ensures Echo(None) == Echo(Some("none")) == "echo: none"
  {
  }

  /** A missing parameter and the parameter "none" give the same reply. */
  lemma ParamMissingIsNone()
    ensures Param(None) == Param(Some("none")) == "param: none"
  {
  }

  /** Apart from that one collision, different replies mean different
      texts: the echo determines the text it was given. */
  lemma EchoInjective(a: string, b: string)
    requires Echo(Some(a)) == Echo(Some(b))
    ensures a == b
  {
    assert Echo(Some(a))[|EchoPrefix|..] == a;
    assert Echo(Some(b))[|EchoPrefix|..] == b;
  }

  /** The same holds for the parameter endpoint. */
  lemma ParamInjective(a: string, b: string)
    requires Param(Some(a)) == Param(Some(b))
    ensures a == b
  {
    assert Param(Some(a))[|ParamPrefix|..] == a;
    assert Param(Some(b))[|ParamPrefix|..] == b;
  }
}
