/** The enumerations of the `Campaign` table (prisma/schema.prisma). */
module Campaigns {
  datatype Status = Draft | Scheduled | Sent | Failed | Expired

  datatype Queue = Qualified | Fallback | Review | Unqueued
}
