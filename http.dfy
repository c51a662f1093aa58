/** The responses the handlers send: a status code and a JSON body. */
module Http {
  import opened TaskModel
  import opened UserModel

  /** The JSON bodies, by shape. Each message text is the handler's own. */
  datatype Body =
    | Message(text: string)
    | ValidationErrors(messages: seq<string>)
    | TaskResult(text: string, task: Task)
    | TaskDoc(task: Task)
    | TaskList(tasks: seq<Task>)
    | UserResult(text: string, summary: UserSummary)
    | UserDoc(user: UserView)
    | UserList(users: seq<UserView>)
    | TokenIssued(text: string, token: string)
    /** the body of a 500 answer, which carries the thrown error */
    | ServerError
    /** what `authorizeRoles` sends when the role is not listed */
    | RoleRefused

  datatype Response = Response(code: nat, body: Body)

  /** The 500 answer of a handler's `catch` block that sends the thrown error along. */
  const Crash := Response(500, ServerError)

  /** The 500 answer of a `catch` block that sends only `{ msg: 'Server error' }`. */
  const ServerFault := Response(500, Message("Server error"))

  // The message texts the handlers and the manager check send.
  const TaskNotFound := "Task not found"
  const Unauthorized := "Unauthorized operation"
  const UserNotFound := "User not found"
  const HasManager := "User already has a manager assigned"
  const AccessDenied := "Access denied"
  const UserExists := "User already exists"
  const AdminsDelete := "Only admins can delete tasks"
  const AdminsCreate := "Only admins can create tasks"
  const OwnTasksOnly := "Users can only update their own tasks"
  const StatusOnly := "Users can only update the status of their tasks"
  const Registered := "User registered successfully"
  const TaskUpdated := "Task updated successfully"
  const ManagerAssigned := "Manager assigned successfully"
  const LoggedIn := "Login successful"
  const InvalidManager := "Invalid manager ID"
  const InvalidCredentials := "Invalid credentials"
  const TeamOnly := "You can only assign tasks to users in your team"
  const TaskDeleted := "Task deleted successfully"
  const TaskCreated := "Task created successfully"
  const TaskAssigned := "Task assigned successfully"
  const OnlyUsersManaged := "Only users can have a manager"
  const AdminsOrManagers := "Only admins or managers can assign tasks"
  const ManagersTeamOnly := "Managers can only update tasks within their team"
  const UserIdRequired := "User ID is required"

  // The subjects of the emails the task handlers ask for.
  const UpdatedSubject := "Task Updated"
  const AssignedSubject := "New Task Assigned"
}
