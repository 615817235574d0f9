/** The persistent records shared by the services (the JPA entities). */
module Entities {
  import opened Wrappers

  /** Entity ids. The database generates UUIDs; the model only needs them distinct. */
  type Id = nat

  /** A LocalDateTime reading: the calendar day (as a day number) and the second of that day. */
  datatype Timestamp = Timestamp(day: int, second: nat)

  datatype StorageType = LOCAL | GOOGLE_DRIVE

  datatype Course = Course(
    title: string,
    description: Option<string>,
    category: Option<string>,
    createDate: Option<Timestamp>)

  datatype Module = Module(
    title: string,
    course: Option<Id>,
    duration: Option<string>,
    orderIndex: Option<int>)

  datatype LessonGroup = LessonGroup(
    title: string,
    parentModule: Option<Id>,
    orderIndex: Option<int>)

  datatype Lesson = Lesson(
    title: string,
    description: Option<string>,
    duration: Option<string>,
    orderIndex: Option<int>,
    resourcePath: Option<string>,
    storageType: Option<StorageType>,
    lessonGroup: Option<Id>)

}
