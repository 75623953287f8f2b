/**
 * The data-management handler that spans both components: clearing every
 * stored key and resetting the timer.
 */
module App {
  import opened Records
  import opened Store
  import opened Timer

  /**
   * `clearAllData`: when the user confirms, the three keys are removed, the
   * session count goes back to 0 and the timer is reset, so the page falls
   * back to the sample tasks and projects. Declining changes nothing.
   */
  method ClearAllData(storage: LocalStorage, timer: FocusTimer, confirmed: bool)
    requires timer.Valid() && timer.storage == storage
    modifies storage, timer
    ensures timer.Valid()
    ensures !confirmed ==> storage.entries == old(storage.entries) && unchanged(timer)
    ensures confirmed ==> storage.entries == map[]
    ensures confirmed ==> storage.Tasks() == SampleTasks && storage.Projects() == SampleProjects
    ensures confirmed ==> timer.sessionsCompleted == 0 && !timer.timerRunning && timer.timerSeconds == WorkSeconds
  {
    if confirmed {
      storage.entries := storage.entries - {TasksKey, ProjectsKey, SessionsKey};
      forall key: Key ensures key !in storage.entries {
        assert key == TasksKey || key == ProjectsKey || key == SessionsKey;
      }
      assert storage.entries == map[];
      timer.sessionsCompleted := 0;
      timer.Reset();
    }
  }
}
