/** The object-level permission IsOwnerOrAdmin: who may act on a user record. */
module Permissions {
  import opened Models

  /** IsOwnerOrAdmin.has_object_permission. `verb` is the request's HTTP
      method, `isOwner` stands for `obj == request.user` and `isStaff` for
      `request.user.is_staff`. */
  function HasObjectPermission(verb: string, isOwner: bool, isStaff: bool): (granted: bool)
    ensures granted ==> verb == "GET" || verb == "POST" || verb == "DELETE"
    ensures granted ==> isOwner || isStaff
    ensures isStaff && (verb == "GET" || verb == "POST" || verb == "DELETE") ==> granted
  {
    if verb in ["GET", "POST"] then isOwner || isStaff
    else if verb in ["DELETE"] then isStaff
    else false
  }

  /** GET and POST are granted exactly to the owner and to staff. */
  lemma ReadPostGrant(verb: string, isOwner: bool, isStaff: bool)
    requires verb == "GET" || verb == "POST"
    ensures HasObjectPermission(verb, isOwner, isStaff) <==> isOwner || isStaff
  {
  }

  /** A non-staff user may GET their own record and not anyone else's. */
  lemma NonStaffSeesOnlyOwnRecord()
    ensures HasObjectPermission("GET", true, false)
    ensures !HasObjectPermission("GET", false, false)
  {
  }

  /** DELETE is granted exactly to staff, whoever owns the record: a non-staff
      owner cannot delete their own record. */
  lemma DeleteOnlyStaff(isOwner: bool, isStaff: bool)
    ensures HasObjectPermission("DELETE", isOwner, isStaff) == isStaff
  {
  }

  /** Every other verb, PUT and PATCH included, is denied to everyone. */
  lemma OtherMethodsDenied(verb: string, isOwner: bool, isStaff: bool)
    requires verb != "GET" && verb != "POST" && verb != "DELETE"
    ensures !HasObjectPermission(verb, isOwner, isStaff)
  {
  }

  /** Turning is_staff on never turns an allow into a deny. */
  lemma MonotoneInStaff(verb: string, isOwner: bool)
    ensures HasObjectPermission(verb, isOwner, false) ==> HasObjectPermission(verb, isOwner, true)
  {
  }

  /** With the flags as Staff.save leaves them, a requester may delete exactly
      when their role is Admin. */
  lemma OnlyAdminMayDelete(requester: StaffState, isOwner: bool)
    ensures HasObjectPermission("DELETE", isOwner, Saved(requester).isStaff)
            <==> requester.role == RoleLabel(Admin)
  {
  }
}
