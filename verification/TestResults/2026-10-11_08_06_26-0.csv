TestResult.DisplayName,TestResult.Outcome,TestResult.Duration,TestResult.ResourceCount,RandomSeed
Scenes.Scene.DestroyObject (correctness),Passed,00:00:00.0964863,109559,5
Scenes.Scene.DestroyObject (well-formedness),Passed,00:00:00.0834645,38289,5
