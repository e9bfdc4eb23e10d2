/** The statement policy installed as the SQLite authorizer. */
module Policy {
  import opened Prelude
  import opened Ascii
  import opened Sqlite

  datatype Authorization = Allow | Deny

  const ARG_SAFE_PRAGMAS: seq<string> :=
    ["table_info", "table_xinfo", "table_list", "index_list", "index_info", "index_xinfo",
     "foreign_key_list", "foreign_key_check", "integrity_check", "quick_check"]

  function AuthorizePragma(name: string, hasValue: bool): Authorization {
    var lower := Lower(name);
    if lower == "wal_checkpoint" || lower in ARG_SAFE_PRAGMAS then Allow
    else if hasValue then Deny else Allow
  }

  function AuthorizeAction(action: AuthAction): Authorization {
    match action
    case Attach(_) => Deny
    case Detach(_) => Deny
    case Pragma(name, value) => AuthorizePragma(name, value.Some?)
    case Other => Allow
  }

  // A statement is prepared only if every action it asks about is allowed.
  predicate Permitted(actions: seq<AuthAction>) {
    forall i :: 0 <= i < |actions| ==> AuthorizeAction(actions[i]) == Allow
  }

  // `CheckpointMode::as_pragma_arg`, as text.
  function ArgText(arg: CheckpointArg): string {
    match arg
    case TRUNCATE => "TRUNCATE"
    case RESTART => "RESTART"
    case FULL => "FULL"
    case PASSIVE => "PASSIVE"
  }

  lemma CaseDoesNotMatter(name: string, other: string, hasValue: bool)
    requires EqIgnoreCase(name, other)
    ensures AuthorizePragma(name, hasValue) == AuthorizePragma(other, hasValue)
  {
    EqIgnoreCaseIsLowerEq(name, other);
  }

  // The names whose argument form is let through, in any letter case.
  ghost predicate HarmlessName(name: string) {
    || EqIgnoreCase(name, "wal_checkpoint")
    || EqIgnoreCase(name, "table_info") || EqIgnoreCase(name, "table_xinfo") || EqIgnoreCase(name, "table_list")
    || EqIgnoreCase(name, "index_list") || EqIgnoreCase(name, "index_info") || EqIgnoreCase(name, "index_xinfo")
    || EqIgnoreCase(name, "foreign_key_list") || EqIgnoreCase(name, "foreign_key_check")
    || EqIgnoreCase(name, "integrity_check") || EqIgnoreCase(name, "quick_check")
  }

  // What the policy forbids; everything else it allows.
  ghost predicate Forbidden(action: AuthAction) {
    action.Attach? || action.Detach? || (action.Pragma? && action.value.Some? && !HarmlessName(action.name))
  }

  predicate IsLower(s: string) {
    forall i :: 0 <= i < |s| ==> LowerChar(s[i]) == s[i]
  }

  lemma SpellsLower(name: string, key: string)
    requires IsLower(key)
    ensures EqIgnoreCase(name, key) <==> Lower(name) == key
  {
    EqIgnoreCaseIsLowerEq(name, key);
    assert Lower(key) == key;
  }

  lemma ListedExactly(key: string)
    ensures key == "wal_checkpoint" || key in ARG_SAFE_PRAGMAS
            <==> || key == "wal_checkpoint" || key == "table_info" || key == "table_xinfo" || key == "table_list"
                 || key == "index_list" || key == "index_info" || key == "index_xinfo"
                 || key == "foreign_key_list" || key == "foreign_key_check"
                 || key == "integrity_check" || key == "quick_check"
  {
  }

  lemma TableNames(name: string)
    ensures EqIgnoreCase(name, "table_info") <==> Lower(name) == "table_info"
    ensures EqIgnoreCase(name, "table_xinfo") <==> Lower(name) == "table_xinfo"
    ensures EqIgnoreCase(name, "table_list") <==> Lower(name) == "table_list"
  {
    SpellsLower(name, "table_info");
    SpellsLower(name, "table_xinfo");
    SpellsLower(name, "table_list");
  }

  lemma IndexNames(name: string)
    ensures EqIgnoreCase(name, "index_list") <==> Lower(name) == "index_list"
    ensures EqIgnoreCase(name, "index_info") <==> Lower(name) == "index_info"
    ensures EqIgnoreCase(name, "index_xinfo") <==> Lower(name) == "index_xinfo"
  {
    SpellsLower(name, "index_list");
    SpellsLower(name, "index_info");
    SpellsLower(name, "index_xinfo");
  }

  lemma KeyNames(name: string)
    ensures EqIgnoreCase(name, "foreign_key_list") <==> Lower(name) == "foreign_key_list"
    ensures EqIgnoreCase(name, "foreign_key_check") <==> Lower(name) == "foreign_key_check"
  {
    SpellsLower(name, "foreign_key_list");
    SpellsLower(name, "foreign_key_check");
  }

  lemma CheckNames(name: string)
    ensures EqIgnoreCase(name, "wal_checkpoint") <==> Lower(name) == "wal_checkpoint"
    ensures EqIgnoreCase(name, "integrity_check") <==> Lower(name) == "integrity_check"
    ensures EqIgnoreCase(name, "quick_check") <==> Lower(name) == "quick_check"
  {
    SpellsLower(name, "wal_checkpoint");
    SpellsLower(name, "integrity_check");
    SpellsLower(name, "quick_check");
  }

  lemma HarmlessIsListed(name: string)
    ensures HarmlessName(name) <==> Lower(name) == "wal_checkpoint" || Lower(name) in ARG_SAFE_PRAGMAS
  {
    TableNames(name);
    IndexNames(name);
    KeyNames(name);
    CheckNames(name);
    ListedExactly(Lower(name));
  }

  // The verdict, exactly.
  lemma VerdictExactly(action: AuthAction)
    ensures AuthorizeAction(action) == (if Forbidden(action) then Deny else Allow)
  {
    if action.Pragma? {
      HarmlessIsListed(action.name);
    }
  }

  lemma PermittedExactly(actions: seq<AuthAction>)
    ensures Permitted(actions) <==> forall i :: 0 <= i < |actions| ==> !Forbidden(actions[i])
  {
    forall i | 0 <= i < |actions| ensures AuthorizeAction(actions[i]) == Allow <==> !Forbidden(actions[i]) {
      VerdictExactly(actions[i]);
    }
  }

  lemma SafePragmasAreNoSettings(key: string)
    requires key == "wal_checkpoint" || key in ARG_SAFE_PRAGMAS
    ensures key in WITHOUT_SETTING
  {
  }

  // No allowed action is one that may change the configuration or the attached databases.
  lemma AllowedCannotReconfigure(action: AuthAction)
    requires AuthorizeAction(action) == Allow
    ensures !MayReconfigure(action)
  {
    if action.Pragma? && action.value.Some? {
      SafePragmasAreNoSettings(Lower(action.name));
    }
  }

  // A statement all of whose actions are allowed leaves the configuration as it is,
  // whatever the environment would make of it.
  lemma PermittedKeepsConfig(g: Config, actions: seq<AuthAction>, left: Config)
    requires Permitted(actions)
    ensures Configure(g, actions, left) == g
  {
    forall i | 0 <= i < |actions| ensures !MayReconfigure(actions[i]) {
      AllowedCannotReconfigure(actions[i]);
    }
  }

  // The durability flush itself always gets past the authorizer.
  lemma InternalCheckpointAllowed(arg: CheckpointArg)
    ensures Permitted([Pragma("wal_checkpoint", Some(ArgText(arg)))])
  {
  }
}
