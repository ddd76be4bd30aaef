/**
 * Values shared by the three resources: an optional value (a lookup that
 * may find nothing, where the resources return null) and the (status,
 * message) pair a JAX-RS Response carries.
 */
module Common {

  datatype Option<+T> = None | Some(value: T)

  /** HTTP status codes the resources answer with. */
  const Ok: nat := 200
  const Created: nat := 201
  const NotFound: nat := 404

  /** What `Response.status(s).entity(m).build()` carries. */
  datatype Response = Response(status: nat, message: string)

  /** The text a PUT on an unknown id answers with, after the body's id. */
  const UpdateNotFound: string :=
    " is not found. Use PUT with a correct ID to modify or use POST to create new entry."

  /** The text a DELETE on an unknown id answers with, after the path id. */
  const DeleteNotFound: string := " is not found. Use DELETE with a correct ID to delete."

  /** The text an update answers with on success. */
  function RenamedMessage(oldName: string, newName: string): string {
    oldName + " renamed to " + newName
  }
}
