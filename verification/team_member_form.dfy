/** The add/edit team-member form: its schema, the values it is reset to,
    and what a submit does. The clock (`Date.now()`), the random placeholder
    avatar and the URL check are parameters. */
module TeamMemberForm {
  import opened Common
  import opened Domain

  /** The raw form fields. */
  datatype MemberInput = MemberInput(name: string, role: string, avatarUrl: string)

  /** The fields once the schema has accepted them. */
  datatype MemberValues = MemberValues(name: string, role: Role, avatarUrl: string)

  datatype Issue = Issue(field: string, message: string)

  /** The enum schema's role names. */
  function ParseRole(s: string): (r: Option<Role>)
    ensures r.Some? ==> RoleName(r.value) == s
  {
    if s == "Foreman" then Some(Foreman)
    else if s == "Laborer" then Some(Laborer)
    else if s == "Finisher" then Some(Finisher)
    else if s == "Driver" then Some(Driver)
    else None
  }

  /** The roles the role select offers, in display order. */
  const RoleChoices: seq<Role> := [Foreman, Finisher, Laborer, Driver]

  /** The select offers every role exactly once, and each one passes the
      schema. */
  lemma RoleChoicesComplete(r: Role)
    ensures multiset(RoleChoices)[r] == 1
    ensures ParseRole(RoleName(r)) == Some(r)
  {
  }

  /** The schema: a name of at least 2 characters, one of the four roles, and
      an avatar URL that is empty or a URL. Issues come in field order. */
  function ValidateMember(input: MemberInput, isUrl: string -> bool): Result<MemberValues, seq<Issue>> {
    var role := ParseRole(input.role);
    var nameIssues := if Utf16Length(input.name) < 2 then [Issue("name", "Name must be at least 2 characters.")] else [];
    var roleIssues :=
      if role.None?
      then [Issue("role", "Invalid enum value. Expected 'Foreman' | 'Laborer' | 'Finisher' | 'Driver', received '" + input.role + "'")]
      else [];
    var urlIssues := if input.avatarUrl != "" && !isUrl(input.avatarUrl) then [Issue("avatarUrl", "Please enter a valid URL.")] else [];
    if nameIssues == [] && role.Some? && urlIssues == [] then Ok(MemberValues(input.name, role.value, input.avatarUrl))
    else Err(nameIssues + roleIssues + urlIssues)
  }

  /** Accepted exactly under the three field rules, and then the values are
      the fields themselves. */
  lemma ValidateMemberSpec(input: MemberInput, isUrl: string -> bool)
    ensures ValidateMember(input, isUrl).Ok? <==>
      && Utf16Length(input.name) >= 2
      && input.role in {"Foreman", "Laborer", "Finisher", "Driver"}
      && (input.avatarUrl == "" || isUrl(input.avatarUrl))
    ensures ValidateMember(input, isUrl).Ok? ==>
      var v := ValidateMember(input, isUrl).value;
      v.name == input.name && RoleName(v.role) == input.role && v.avatarUrl == input.avatarUrl
  {
  }

  /** The values the form is reset to: the member's own when editing,
      otherwise an empty name, the Laborer role and no avatar. */
  function ResetValues(member: Option<TeamMember>): MemberInput {
    match member
    case Some(m) => MemberInput(m.name, RoleName(m.role), m.avatarUrl)
    case None => MemberInput("", "Laborer", "")
  }

  /** The effects of a submit, in order. */
  datatype Effect =
    | UpdateMember(member: TeamMember)
    | AddMember(member: TeamMember)
    | Toast(title: string, description: string)
    | Finished

  /** The record written when editing: the member with the new name and role,
      and the new avatar unless it was left empty. */
  function UpdatedMember(member: TeamMember, data: MemberValues): TeamMember {
    member.(name := data.name, role := data.role,
            avatarUrl := if data.avatarUrl != "" then data.avatarUrl else member.avatarUrl)
  }

  /** The record created when adding; `now` stands for `Date.now()` and
      `randomAvatar` for the placeholder picked at random. */
  function NewMember(data: MemberValues, now: nat, randomAvatar: string): TeamMember {
    TeamMember("tm-" + NatToString(now), data.name, data.role,
               if data.avatarUrl != "" then data.avatarUrl else randomAvatar)
  }

  /** `onSubmit`: update or add, a toast, then the optional `onFinished`. */
  function OnSubmit(member: Option<TeamMember>, data: MemberValues, now: nat, randomAvatar: string,
                    hasOnFinished: bool): seq<Effect>
  {
    var write := match member
      case Some(m) => [UpdateMember(UpdatedMember(m, data)),
                       Toast("Member Updated", data.name + "'s details have been successfully updated.")]
      case None => [AddMember(NewMember(data, now, randomAvatar)),
                    Toast("Member Added", data.name + " has been added to the team.")];
    write + (if hasOnFinished then [Finished] else [])
  }

  /** Exactly one write happens, an update when a member is being edited and
      an add otherwise; the matching toast follows it, and `onFinished` runs
      last, and only then, when it is given. */
  lemma OnSubmitShape(member: Option<TeamMember>, data: MemberValues, now: nat, randomAvatar: string,
                      hasOnFinished: bool)
    ensures var fx := OnSubmit(member, data, now, randomAvatar, hasOnFinished);
      && |fx| == (if hasOnFinished then 3 else 2)
      && (member.Some? <==> fx[0].UpdateMember?)
      && (member.None? <==> fx[0].AddMember?)
      && fx[1].Toast?
      && fx[1].title == (if member.Some? then "Member Updated" else "Member Added")
      && (forall i :: 1 <= i < |fx| ==> !fx[i].UpdateMember? && !fx[i].AddMember?)
      && (forall i :: 0 <= i < |fx| - 1 ==> fx[i] != Finished)
      && (hasOnFinished <==> fx[|fx| - 1] == Finished)
  {
  }

  /** The toast names the submitted member: "<name>'s details have been
      successfully updated." after an edit, "<name> has been added to the
      team." after an add. */
  lemma OnSubmitToast(member: Option<TeamMember>, data: MemberValues, now: nat, randomAvatar: string,
                      hasOnFinished: bool)
    ensures var t := OnSubmit(member, data, now, randomAvatar, hasOnFinished)[1];
      && t.Toast?
      && StartsWith(t.description, data.name)
      && t.description[|data.name|..]
         == (if member.Some? then "'s details have been successfully updated." else " has been added to the team.")
  {
  }

  /** An update keeps the id, takes name and role from the form, and keeps
      the old avatar when the field was left empty. */
  lemma UpdatedMemberSpec(member: TeamMember, data: MemberValues)
    ensures UpdatedMember(member, data).id == member.id
    ensures UpdatedMember(member, data).name == data.name
    ensures UpdatedMember(member, data).role == data.role
    ensures data.avatarUrl == "" ==> UpdatedMember(member, data).avatarUrl == member.avatarUrl
    ensures data.avatarUrl != "" ==> UpdatedMember(member, data).avatarUrl == data.avatarUrl
  {
  }

  /** A new member's id is "tm-" and the clock reading (so different
      readings give different ids); its avatar is the entered one or the
      placeholder. */
  lemma NewMemberSpec(data: MemberValues, now: nat, later: nat, randomAvatar: string)
    ensures StartsWith(NewMember(data, now, randomAvatar).id, "tm-")
    ensures DigitsValue(NewMember(data, now, randomAvatar).id[3..]) == now
    ensures now != later ==> NewMember(data, now, randomAvatar).id != NewMember(data, later, randomAvatar).id
    ensures NewMember(data, now, randomAvatar).avatarUrl == if data.avatarUrl == "" then randomAvatar else data.avatarUrl
  {
    var id1, id2 := NewMember(data, now, randomAvatar).id, NewMember(data, later, randomAvatar).id;
    assert id1[3..] == NatToString(now);
    assert id2[3..] == NatToString(later);
    NatToStringRoundTrip(now);
    NatToStringRoundTrip(later);
  }

  /** Editing a member and submitting the reset form unchanged writes the
      member back as it was (when its stored fields pass the schema). */
  lemma EditUnchangedIsIdentity(m: TeamMember, isUrl: string -> bool, now: nat, randomAvatar: string)
    requires Utf16Length(m.name) >= 2 && (m.avatarUrl == "" || isUrl(m.avatarUrl))
    ensures ValidateMember(ResetValues(Some(m)), isUrl).Ok?
    ensures OnSubmit(Some(m), ValidateMember(ResetValues(Some(m)), isUrl).value, now, randomAvatar, false)[0]
            == UpdateMember(m)
  {
    RoleChoicesComplete(m.role);
  }

  /** The name rule counts UTF-16 code units: a name made of one character
      outside the Basic Multilingual Plane is long enough. */
  lemma AstralNameAccepted(isUrl: string -> bool)
    ensures ValidateMember(MemberInput("\U{1D49C}", "Laborer", ""), isUrl)
            == Ok(MemberValues("\U{1D49C}", Laborer, ""))
  {
    assert "\U{1D49C}"[..0] == [];
  }

  /** The fresh form is not submittable: its name is empty. */
  lemma FreshFormRejected(isUrl: string -> bool)
    ensures ValidateMember(ResetValues(None), isUrl) == Err([Issue("name", "Name must be at least 2 characters.")])
  {
    var input := ResetValues(None);
    assert ParseRole(input.role) == Some(Laborer);
    var issue := Issue("name", "Name must be at least 2 characters.");
    assert [issue] + [] + [] == [issue];
  }
}
