/** Security identity and the classification of tools (`crates/core/src/principal.rs`). */
module Principals {
  import opened Text
  import opened Permissions

  datatype Principal = Principal(tenantId: string, userId: string, perms: PermissionSet)

  /** The six audited actions carry the same names as the six rights they need. */
  datatype AuditAction = AuditAction(right: Permission) {
    function Name(): string {
      match right
      case Read => "read"
      case Generate => "generate"
      case Modify => "modify"
      case Execute => "execute"
      case Commit => "commit"
      case Audit => "audit"
    }

    /** The bit value 1, 2, 4, 8, 16 or 32; the source's comment "0..5" does not describe it. */
    function PermBit(): nat { right.Bit() }
  }

  /** The right a tool name needs, or `None` for a tool that is not privileged. */
  function ActionPermission(tool: string): Option<Permission> {
    var name := ToAsciiLower(tool);
    if name in ["read", "read_document", "readfile", "read_file"] then Some(Read)
    else if name in ["generate", "chat", "complete", "nes", "ghost", "draft"] then Some(Generate)
    else if name in ["modify", "edit", "write", "apply", "apply_edit"] then Some(Modify)
    else if name in ["execute", "run", "shell", "command", "exec"] then Some(Execute)
    else if name == "commit" then Some(Commit)
    else None
  }

  function CheckPermission(principal: Principal, required: Permission): Outcome {
    Require(principal.perms, required)
  }

  /** Whether the principal holds whatever right `tool` is classified under. */
  predicate MayUse(principal: Principal, tool: string) {
    var required := ActionPermission(tool);
    required.Some? ==> principal.perms.Has(required.value)
  }

  /** Execute- and Commit-classified tools, the ones the Quest approval gate holds back. */
  predicate Risky(tool: string) {
    ActionPermission(tool) == Some(Execute) || ActionPermission(tool) == Some(Commit)
  }

  /** The names under which a right is needed. */
  function NamesFor(right: Permission): seq<string> {
    match right
    case Read => ["read", "read_document", "readfile", "read_file"]
    case Generate => ["generate", "chat", "complete", "nes", "ghost", "draft"]
    case Modify => ["modify", "edit", "write", "apply", "apply_edit"]
    case Execute => ["execute", "run", "shell", "command", "exec"]
    case Commit => ["commit"]
    case Audit => []
  }

  predicate IsUpper(c: char) { 'A' <= c <= 'Z' }

  /** `s` is `name` but for the case of some letters. */
  predicate Spells(s: string, name: string) {
    |s| == |name| && forall i :: 0 <= i < |s| ==>
      s[i] == name[i] || (IsUpper(s[i]) && name[i] as int == s[i] as int + 32)
  }

  lemma LowerSpells(s: string, name: string)
    requires forall c <- name :: !IsUpper(c)
    ensures Spells(s, name) <==> ToAsciiLower(s) == name
  {
    var lower := ToAsciiLower(s);
    forall i | 0 <= i < |s| && |s| == |name|
      ensures lower[i] == name[i] <==> s[i] == name[i] || (IsUpper(s[i]) && name[i] as int == s[i] as int + 32)
    {
      assert name[i] in name;
    }
  }

  lemma NamesAreLower(right: Permission)
    ensures forall name <- NamesFor(right) :: forall c <- name :: !IsUpper(c)
  {
  }

  lemma NamesClassified(tool: string, right: Permission)
    ensures ActionPermission(tool) == Some(right) <==> ToAsciiLower(tool) in NamesFor(right)
  {
    hide ToAsciiLower;
  }

  /** A tool needs a right exactly when its name is one of those listed for it, in whatever case. */
  lemma ClassifiedBySpelling(tool: string, right: Permission)
    ensures ActionPermission(tool) == Some(right) <==> exists name <- NamesFor(right) :: Spells(tool, name)
  {
    hide ActionPermission, NamesFor, ToAsciiLower, Spells;
    NamesClassified(tool, right);
    NamesAreLower(right);
    forall name | name in NamesFor(right) ensures Spells(tool, name) <==> ToAsciiLower(tool) == name {
      LowerSpells(tool, name);
    }
  }

  /** Letter case never changes the classification, and no tool is classified under Audit. */
  lemma ClassificationIgnoresCase(tool: string)
    ensures ActionPermission(ToAsciiLower(tool)) == ActionPermission(tool)
    ensures ActionPermission(tool) != Some(Audit)
  {
    ToAsciiLowerIdempotent(tool);
  }

  /** Names and bit values each identify an audited action. */
  lemma AuditActionsDistinct(a: AuditAction, b: AuditAction)
    ensures a.Name() == b.Name() ==> a == b
    ensures a.PermBit() == b.PermBit() ==> a == b
    ensures '|' !in a.Name()
  {
    if a != b {
      assert "read"[0] == 'r' && "generate"[0] == 'g' && "modify"[0] == 'm' && "execute"[0] == 'e'
          && "commit"[0] == 'c' && "audit"[0] == 'a';
    }
  }

  lemma FinishIsFree()
    ensures ActionPermission("finish") == None && ActionPermission("inspect") == None
    ensures ActionPermission("modify") == Some(Modify)
  {
    var inspect := ToAsciiLower("inspect");
    assert |inspect| == 7 && inspect[0] == 'i';
    var lower := ToAsciiLower("finish");
    assert |lower| == 6 && lower[0] == 'f';
    assert ToAsciiLower("modify") == "modify";
  }
}
