TestResult.DisplayName,TestResult.Outcome,TestResult.Duration,TestResult.ResourceCount,RandomSeed
Scenes.Scene.DestroyObject (correctness),Passed,00:00:00.1218277,109231,3
Scenes.Scene.DestroyObject (well-formedness),Passed,00:00:00.0965582,38291,3
