/** The Feedback document and the constraints its schema enforces on save. */
module FeedbackModel {

  import opened Wrappers
  import opened Schema

  const Pending := "pending"
  const Approved := "approved"
  const Rejected := "rejected"

  /** The `enum` of the status field. */
  predicate IsStatus(s: string) {
    s == Pending || s == Approved || s == Rejected
  }

  /** A feedback document; `createdAt` is the server's timestamp, kept opaque as an integer. */
  datatype Feedback = Feedback(
    id: string,
    name: string,
    email: string,
    message: string,
    status: string,
    reply: Option<string>,
    repliedAt: Option<int>,
    createdAt: int)

  /** The schema's constraints on every field of a saved document. */
  predicate FeedbackValid(f: Feedback) {
    && Required(Some(f.name)) && MaxLength(f.name, 100)
    && MaxLength(f.email, 100)
    && Required(Some(f.message)) && MaxLength(f.message, 500)
    && IsStatus(f.status)
    && WithinLength(f.reply, 500)
  }

  function CreatedAt(f: Feedback): int {
    f.createdAt
  }

  function FeedbackId(f: Feedback): string {
    f.id
  }
}
