/** StaffSerializer: creating and updating Staff accounts from validated
    request data, with the password kept out of the plain field copy. */
module Serializers {
  import opened Wrappers
  import opened Models

  /** validated_data: the serializer's fields that the request supplied. */
  type FieldMap = map<StaffAttr, string>

  /** validated_data.pop("password", None): the password if supplied, and the
      remaining fields. */
  function PopPassword(data: FieldMap): (r: (Option<string>, FieldMap))
    ensures r.0 == (if Password in data then Some(data[Password]) else None)
    ensures Password !in r.1
    ensures forall a :: a != Password ==> (a in r.1 <==> a in data)
    ensures forall a :: a in r.1 ==> r.1[a] == data[a]
  {
    (if Password in data then Some(data[Password]) else None, data - {Password})
  }

  /** Python truthiness of the popped password: present and non-empty. */
  predicate Truthy(password: Option<string>) {
    password.Some? && password.value != ""
  }

  /** The state StaffSerializer.create builds before saving. */
  function Created(data: FieldMap, hash: string -> string): (r: StaffState)
    ensures forall a :: a != Password ==> Get(r, a) == if a in data then data[a] else Get(Blank, a)
    ensures r.password == if Truthy(PopPassword(data).0) then hash(data[Password]) else Blank.password
    ensures !r.isStaff && !r.isSuperuser
  {
    var (password, fields) := PopPassword(data);
    var s := Initial(fields);
    if Truthy(password) then s.(password := hash(password.value)) else s
  }

  /** The state StaffSerializer.update leaves before saving. */
  function Updated(s: StaffState, data: FieldMap, hash: string -> string): (r: StaffState)
    ensures forall a :: a != Password ==> Get(r, a) == if a in data then data[a] else Get(s, a)
    ensures r.password == if Truthy(PopPassword(data).0) then hash(data[Password]) else s.password
    ensures r.isStaff == s.isStaff && r.isSuperuser == s.isSuperuser
  {
    var (password, fields) := PopPassword(data);
    var t := Assigned(s, fields);
    if Truthy(password) then t.(password := hash(password.value)) else t
  }

  /** StaffSerializer.create */
  method Create(data: FieldMap, hash: string -> string) returns (staff: Staff)
    ensures fresh(staff)
    ensures staff.State() == Saved(Created(data, hash))
  {
    var (password, fields) := PopPassword(data);
    staff := new Staff(fields);
    if Truthy(password) {
      staff.SetPassword(password.value, hash);
    }
    staff.Save();
  }

  /** StaffSerializer.update: every supplied field but the password is assigned
      onto the instance, the password only through set_password, then the
      instance is saved. */
  method Update(instance: Staff, data: FieldMap, hash: string -> string) returns (r: Staff)
    modifies instance
    ensures r == instance
    ensures instance.State() == Saved(Updated(old(instance.State()), data, hash))
  {
    var (password, fields) := PopPassword(data);
    var pending := fields.Keys;
    while pending != {}
      invariant pending <= fields.Keys
      invariant instance.State() == Assigned(old(instance.State()), fields - pending)
      decreases pending
    {
      var attr :| attr in pending;
      instance.SetAttr(attr, fields[attr]);
      assert fields - (pending - {attr}) == (fields - pending)[attr := fields[attr]];
      AssignedStep(old(instance.State()), fields - pending, attr, fields[attr]);
      pending := pending - {attr};
    }
    assert fields - {} == fields;
    if Truthy(password) {
      instance.SetPassword(password.value, hash);
    }
    instance.Save();
    r := instance;
  }

  /** create never assigns the raw password as a field: the stored password is
      the hash of a non-empty supplied password, and empty otherwise. */
  lemma CreatePassword(data: FieldMap, hash: string -> string)
    ensures Saved(Created(data, hash)).password
            == if Password in data && data[Password] != "" then hash(data[Password]) else ""
  {
  }

  /** create copies every other supplied field and gives the rest their defaults. */
  lemma CreateFields(data: FieldMap, hash: string -> string, a: StaffAttr)
    requires a != Password
    ensures Get(Saved(Created(data, hash)), a) == if a in data then data[a] else Get(Blank, a)
  {
  }

  /** A Staff created without a role is an Admin with both flags set. */
  lemma CreateDefaultsToAdmin(data: FieldMap, hash: string -> string)
    requires Role !in data
    ensures Saved(Created(data, hash)).role == RoleLabel(Admin)
    ensures Saved(Created(data, hash)).isStaff && Saved(Created(data, hash)).isSuperuser
  {
  }

  /** update copies every supplied field other than the password. */
  lemma UpdateCopiesSupplied(s: StaffState, data: FieldMap, hash: string -> string, a: StaffAttr)
    requires a in data && a != Password
    ensures Get(Saved(Updated(s, data, hash)), a) == data[a]
  {
  }

  /** update leaves every attribute that was not supplied as it was. */
  lemma UpdateKeepsUnsupplied(s: StaffState, data: FieldMap, hash: string -> string, a: StaffAttr)
    requires a !in data
    ensures Get(Saved(Updated(s, data, hash)), a) == Get(s, a)
  {
  }

  /** A missing or empty password leaves the stored one unchanged; a non-empty
      one is replaced by its hash, never by the raw string. */
  lemma UpdatePassword(s: StaffState, data: FieldMap, hash: string -> string)
    ensures Saved(Updated(s, data, hash)).password
            == if Password in data && data[Password] != "" then hash(data[Password]) else s.password
  {
  }

  /** After update the flags follow the role the instance ends up with: the
      supplied one, or the one it had. */
  lemma UpdateRederivesFlags(s: StaffState, data: FieldMap, hash: string -> string)
    ensures var r := Saved(Updated(s, data, hash));
            && r.isStaff == r.isSuperuser
            && (r.isStaff <==> IsAdminRole(if Role in data then data[Role] else s.role))
  {
  }
}
