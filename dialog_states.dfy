/**
 * The bot's dialog states: the main menu, the task list with its detail
 * window, and the steps of the create-task wizard.
 */
module DialogStates {

  datatype State =
    | MainMenu          // MainMenuSG.main
    | TaskList          // TaskListSG.list
    | TaskDetail        // TaskListSG.detail
    | EnterTitle        // CreateTaskSG.title
    | EnterDescription  // CreateTaskSG.description
    | ChooseCategory    // CreateTaskSG.category
    | EnterCategoryName // CreateTaskSG.input_category_name
    | EnterDueDate      // CreateTaskSG.due_date
    | Confirm           // CreateTaskSG.confirm
}
