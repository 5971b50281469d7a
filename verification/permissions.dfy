/** The recipe permission `IsAuthorOrAuthOrReadOnly` (backend/api/permissions.py): a request
    is judged by its HTTP method, whether the user is signed in, and, for a single recipe,
    whether the user is its author. `None` is the anonymous user. */
module Permissions {
  import opened Wrappers
  import opened Entities

  /** `has_permission`: only POST needs a signed-in user. */
  function HasPermission(httpMethod: string, user: Option<Id>): (ok: bool)
    ensures !ok ==> httpMethod == "POST" && user.None?
  {
    if httpMethod == "POST" then user.Some? else true
  }

  /** `has_object_permission`: PATCH and DELETE only by the author, GET by anyone, any other
      method by nobody. */
  function HasObjectPermission(httpMethod: string, user: Option<Id>, author: Id): (ok: bool)
    ensures ok ==> httpMethod == "GET" || user == Some(author)
  {
    if httpMethod == "PATCH" || httpMethod == "DELETE" then user.Some? && user.value == author
    else httpMethod == "GET"
  }

  /** The list-level decision: creating needs a signed-in user, every other method passes
      this stage. */
  lemma PermissionTable(user: Option<Id>, m: string)
    ensures HasPermission("POST", user) <==> user.Some?
    ensures m != "POST" ==> HasPermission(m, user)
  {
  }

  /** The object-level decision: the author, and only the author, may change or delete a
      recipe; anyone may read it; every other method is refused, whoever asks. */
  lemma ObjectPermissionTable(user: Option<Id>, author: Id, m: string)
    ensures HasObjectPermission("PATCH", user, author) <==> user == Some(author)
    ensures HasObjectPermission("DELETE", user, author) <==> user == Some(author)
    ensures HasObjectPermission("GET", user, author)
    ensures m !in {"GET", "PATCH", "DELETE"} ==> !HasObjectPermission(m, user, author)
  {
  }

  /** PUT never reaches a recipe, so every update of a recipe that passes the permission is a
      partial one (PATCH). */
  lemma EveryUpdateIsPartial(httpMethod: string, user: Option<Id>, author: Id)
    requires httpMethod == "PUT" || httpMethod == "PATCH"
    requires HasObjectPermission(httpMethod, user, author)
    ensures httpMethod == "PATCH"
  {
  }

  /** An anonymous user may only read. */
  lemma AnonymousOnlyReads(httpMethod: string, author: Id)
    requires HasPermission(httpMethod, None) && HasObjectPermission(httpMethod, None, author)
    ensures httpMethod == "GET"
  {
  }
}
