/**
 * Configuration validation (utils/configuration.py): the loaded
 * configuration must hold a "jira" section with a project id and a token;
 * the tracker address defaults to the public Red Hat instance.
 */
module Configuration {
  import opened Common

  const DefaultJiraUrl: string := "https://issues.redhat.com"

  /** The settings of the "jira" section that must be present, checked in this order. */
  const RequiredKeys: seq<string> := ["project-id", "token"]

  type Section = map<string, string>

  const MissingJira: string := "Missing 'jira' object in the configuration file"

  const MissingKeyPrefix: string := "Missing 'jira/"

  /** The error for a missing setting: the setting's name sits right after the prefix. */
  function MissingKey(key: string): (r: string)
    ensures |r| > |MissingKeyPrefix| + |key|
    ensures r[..|MissingKeyPrefix|] == MissingKeyPrefix
    ensures r[|MissingKeyPrefix|..|MissingKeyPrefix| + |key|] == key
  {
    MissingKeyPrefix + key + "' object in the configuration file"
  }

  /** The loaded configuration: its top-level sections, each a map of settings. */
  class Config {
    var sections: map<string, Section>

    constructor (sections: map<string, Section>)
      ensures this.sections == sections
    {
      this.sections := sections;
    }
  }

  /** The first of the keys missing from the section, if any. */
  function FirstMissing(section: Section, keys: seq<string>): (r: Option<string>)
    ensures r.None? <==> forall i :: 0 <= i < |keys| ==> keys[i] in section
    ensures r.Some? ==> exists i :: (0 <= i < |keys| && keys[i] == r.value && r.value !in section
                                     && forall j :: 0 <= j < i ==> keys[j] in section)
  {
    if keys == [] then None
    else if keys[0] !in section then Some(keys[0])
    else
      var r := FirstMissing(section, keys[1..]);
      if r.Some? then
        var i :| 0 <= i < |keys| - 1 && keys[1..][i] == r.value && r.value !in section
                 && forall j :: 0 <= j < i ==> keys[1..][j] in section;
        assert keys[i + 1] == r.value;
        r
      else r
  }

  /** The url setting after validation. */
  function Url(jira: Section): string
  {
    if "url" in jira then jira["url"] else DefaultJiraUrl
  }

  /** The outcome of Config.validate: the error raised, or the configuration as it is left. */
  function Validated(sections: map<string, Section>): Result<map<string, Section>, string>
  {
    if "jira" !in sections then Err(MissingJira)
    else
      var missing := FirstMissing(sections["jira"], RequiredKeys);
      if missing.Some? then Err(MissingKey(missing.value))
      else Ok(sections["jira" := sections["jira"]["url" := Url(sections["jira"])]])
  }

  /**
   * Config.validate: the error it raises, if any. The configuration
   * changes only when validation succeeds.
   */
  method Validate(config: Config) returns (error: Option<string>)
    modifies config
    ensures Validated(old(config.sections)).Err? ==>
      error == Some(Validated(old(config.sections)).error) && config.sections == old(config.sections)
    ensures Validated(old(config.sections)).Ok? ==>
      error.None? && config.sections == Validated(old(config.sections)).value
  {
    if "jira" !in config.sections {
      return Some(MissingJira);
    }
    var jira := config.sections["jira"];
    for k := 0 to |RequiredKeys|
      invariant forall j :: 0 <= j < k ==> RequiredKeys[j] in jira
    {
      var key := RequiredKeys[k];
      if key !in jira {
        return Some(MissingKey(key));
      }
    }
    config.sections := config.sections["jira" := jira["url" := if "url" in jira then jira["url"] else DefaultJiraUrl]];
    return None;
  }

  // ---------------------------------------------------------------------
  // Properties.

  /**
   * Validation fails exactly when the "jira" section, its project id or its
   * token is missing, and the error names the first thing missing.
   */
  lemma ErrorsNameWhatIsMissing(sections: map<string, Section>)
    ensures Validated(sections).Err? <==>
      "jira" !in sections || "project-id" !in sections["jira"] || "token" !in sections["jira"]
    ensures "jira" !in sections ==> Validated(sections) == Err(MissingJira)
    ensures "jira" in sections && "project-id" !in sections["jira"] ==>
      Validated(sections) == Err(MissingKey("project-id"))
    ensures "jira" in sections && "project-id" in sections["jira"] && "token" !in sections["jira"] ==>
      Validated(sections) == Err(MissingKey("token"))
  {
    if "jira" in sections {
      var jira := sections["jira"];
      assert RequiredKeys[0] == "project-id" && RequiredKeys[1] == "token";
      if "project-id" !in jira {
        assert FirstMissing(jira, RequiredKeys) == Some("project-id");
      } else if "token" !in jira {
        assert RequiredKeys[1..] == ["token"];
        assert FirstMissing(jira, RequiredKeys) == Some("token");
      }
    }
  }

  /** A missing url becomes the default; one that is there is kept. */
  lemma UrlDefaultsOrIsKept(sections: map<string, Section>)
    requires Validated(sections).Ok?
    ensures var jira := Validated(sections).value["jira"];
      "url" in jira
      && ("url" in sections["jira"] ==> jira["url"] == sections["jira"]["url"])
      && ("url" !in sections["jira"] ==> jira["url"] == "https://issues.redhat.com")
  {
  }

  /** Only the url setting of the "jira" section can change. */
  lemma OnlyTheUrlChanges(sections: map<string, Section>)
    requires Validated(sections).Ok?
    ensures var r := Validated(sections).value;
      r.Keys == sections.Keys
      && (forall s :: s in sections && s != "jira" ==> r[s] == sections[s])
      && r["jira"].Keys == sections["jira"].Keys + {"url"}
      && (forall k :: k in sections["jira"] && k != "url" ==> r["jira"][k] == sections["jira"][k])
  {
  }

  /** Validating a validated configuration succeeds and changes nothing. */
  lemma ValidationIsIdempotent(sections: map<string, Section>)
    requires Validated(sections).Ok?
    ensures Validated(Validated(sections).value) == Validated(sections)
  {
    var r := Validated(sections).value;
    ErrorsNameWhatIsMissing(sections);
    ErrorsNameWhatIsMissing(r);
    assert r["jira"]["url" := Url(r["jira"])] == r["jira"];
    assert r["jira" := r["jira"]] == r;
  }
}
