/**
 * The stored entities the core works on, mirrored field for field where the
 * core reads or writes the field (display-only fields such as image and
 * video locations, biographies and passwords are not carried).
 */
module Models {

  /** A point in time; `ZeroTime` is Go's zero `time.Time` (IsZero). */
  datatype Time = ZeroTime | Instant(stamp: int)

  /** One option of a choice question. */
  datatype Choice = Choice(text: string, correct: bool)

  /** A question or content unit; `elementType` is the `type` field. */
  datatype Element = Element(
    keyID: int,
    text: string,
    elementType: string,
    choices: seq<Choice>,
    textRegex: string,
    essayRegex: string,
    projectID: int,
    ownerID: int)

  /** Membership of an element in a module, with its presentation key. */
  datatype ModuleElement = ModuleElement(keyID: int, moduleID: int, elementID: int, sortKey: int)

  datatype Module = Module(
    keyID: int,
    name: string,
    description: string,
    timeLimit: int,
    maxAttempts: int,
    minPassing: int,
    sortKey: int,
    courseID: int,
    threadIDs: seq<int>,
    ownerID: int)

  /** Anything that can answer a question, plus the flag grading sets. */
  datatype Answer = Answer(
    answer: seq<bool>,
    answerText: string,
    answerEssay: string,
    projectID: int,
    correct: bool)

  /** A learner's recorded attempt at one module; `answers` is keyed by element id. */
  datatype UserModule = UserModule(
    userID: int,
    moduleID: int,
    answers: map<string, Answer>,
    date: string,
    score: int,
    timePassed: int)

  datatype User = User(
    keyID: int,
    username: string,
    email: string,
    firstname: string,
    lastname: string,
    roles: seq<string>,
    modules: seq<UserModule>)

  datatype Role = Role(keyID: int, name: string, numericValue: int)

  datatype Route = Route(keyID: int, name: string, permissionLevel: int)

  datatype Course = Course(
    keyID: int,
    name: string,
    modules: seq<int>,
    ownerID: int,
    approved: bool,
    department: string)

  datatype UserCourse = UserCourse(
    keyID: int,
    userID: int,
    courseID: int,
    grade: int,
    startedOn: Time,
    completedOn: Time,
    role: string)

  datatype Thread = Thread(keyID: int, title: string, body: string, author: string, moduleID: int)

  datatype Project = Project(
    keyID: int,
    name: string,
    description: string,
    file: string,
    userID: int,
    courseID: int,
    moduleID: int)

  datatype CartItem = CartItem(productID: int, quantity: int)

  datatype Cart = Cart(keyID: int, customerID: int, items: seq<CartItem>, updatedAt: Time)

  /*
   * The by-id getters of elements, modules and courses: the stored value with
   * `keyID` overwritten by the key it was read under. The stored `keyID` is
   * whatever the entity was last written with; the other getters of the core
   * (users, projects, threads) leave it as stored.
   */

  function ElementByID(elements: map<int, Element>, id: int): (e: Element)
    requires id in elements
    ensures e.keyID == id && e.(keyID := elements[id].keyID) == elements[id]
  {
    elements[id].(keyID := id)
  }

  function ModuleByID(modules: map<int, Module>, id: int): (m: Module)
    requires id in modules
    ensures m.keyID == id && m.(keyID := modules[id].keyID) == modules[id]
  {
    modules[id].(keyID := id)
  }

  function CourseByID(courses: map<int, Course>, id: int): (c: Course)
    requires id in courses
    ensures c.keyID == id && c.(keyID := courses[id].keyID) == courses[id]
  {
    courses[id].(keyID := id)
  }
}
